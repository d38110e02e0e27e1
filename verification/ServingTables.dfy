/**
 The transactions row by row: for each outcome exactly the tables that lead to it, and what the tables hold
 afterwards. Everything here is said of rows, without the queries that the transactions are made of.
 */
module ServingTables {
  import opened Wrappers
  import opened SnapshotRegistry
  import opened Serving
  import opened ServingInvariant

  // ---- rollback request ----

  /** The row is the rollback target: no row before it is PREVIOUS_STABLE. Of a sound table it is the only one. */
  ghost predicate IsTarget(w: World, i: nat) {
    && i < |w.snapshots| && w.snapshots[i].status == PreviousStable
    && forall j :: 0 <= j < i ==> w.snapshots[j].status != PreviousStable
  }

  lemma TargetRow(w: World, i: nat)
    requires IsTarget(w, i)
    ensures RollbackTarget(w) == Some((w.snapshots[i].model, w.snapshots[i].index))
  {
    FirstIsFound(w.snapshots, PreviousStable, i);
  }

  lemma {:induction false} FirstIsFound(rows: seq<Snapshot>, status: Status, i: nat)
    requires i < |rows| && rows[i].status == status && forall j :: 0 <= j < i ==> rows[j].status != status
    ensures Find(rows, status) == Some(i)
  {
    var n := |rows| - 1;
    if i < n { FirstIsFound(rows[..n], status, i); }
  }

  /** The request may go on to the restore. */
  ghost predicate Admits(w: World, q: RollbackRequest, i: nat)
    requires w.release.Some? && i < |w.snapshots|
  {
    var r := w.release.value;
    && q.version == "v1"
    && (|| r.status == RollbackPreparing
        || (r.status == Stable && r.activeModel != w.snapshots[i].model && r.activeModel == q.expectedModel
            && NamesSwitch(r, q)))
  }

  /** What the guards let through, before anything is written. */
  lemma GuardsAdmit(w: World, q: RollbackRequest, i: nat)
    requires w.release.Some? && IsTarget(w, i)
    ensures var (a, p, row) := (AdmissionOf(w, q), w.release.value, w.snapshots[i]);
      && (a.Rejected? <==> !Admits(w, q, i)) && (a.Start? <==> Admits(w, q, i) && p.status == Stable)
      && (a.Rejected? ==>
        && a.outcome in {UnsupportedVersion, AlreadyRestored, InvalidState, StaleRequest}
        && (a.outcome == UnsupportedVersion <==> q.version != "v1")
        && (a.outcome == AlreadyRestored <==> q.version == "v1" && p.status == Stable && p.activeModel == row.model)
        && (a.outcome == InvalidState <==> q.version == "v1" && p.status == CandidateReindexing))
  {
    hide MatchesSwitch, RollbackTarget, NamesSwitch;
    TargetRow(w, i);
    MatchesIff(w.release.value, q);
  }

  /** The outcome of a request for every case in which there is a target. */
  lemma RollbackOutcomes(w: World, q: RollbackRequest, modelReady: bool, now: int, i: nat)
    requires w.release.Some? && IsTarget(w, i)
    ensures var (outcome, p, row) := (HandleRollback(w, q, modelReady, now).1, w.release.value, w.snapshots[i]);
      && (outcome == UnsupportedVersion <==> q.version != "v1")
      && (outcome == AlreadyRestored <==> q.version == "v1" && p.status == Stable && p.activeModel == row.model)
      && (outcome == InvalidState <==> q.version == "v1" && p.status == CandidateReindexing)
      && (outcome == StaleRequest <==>
           && q.version == "v1" && p.status == Stable && p.activeModel != row.model
           && !(p.activeModel == q.expectedModel && NamesSwitch(p, q)))
      && (outcome == RollbackNotReady <==> Admits(w, q, i) && !modelReady)
      && (outcome == BlockedIndexRestore <==> Admits(w, q, i) && modelReady && !CanServe(w, row.index))
      && (outcome == Restored <==> Admits(w, q, i) && modelReady && CanServe(w, row.index))
  {
    hide ExcludeProjects, CompleteRestore, IndexRestorable, RollbackTarget, CanServe, NamesSwitch, AdmissionOf, Begun;
    TargetRow(w, i);
    GuardsAdmit(w, q, i);
    RestorableIff(w, w.snapshots[i].index);
    BegunServes(w, q, modelReady, now);
    BegunRestorable(w, q, w.snapshots[i].index);
  }

  lemma BegunRestorable(w: World, q: RollbackRequest, index: string)
    requires w.release.Some?
    ensures IndexRestorable(Begun(w, q), index) == IndexRestorable(w, index)
  {
    hide AdmissionOf;
    SameTarget(w, MarkPreparing(ExcludeProjects(w, w.release.value.activeModel)));
  }

  /** A completed rollback puts the target in the release row and nothing else; any other outcome leaves the active
      pair, the switch time and the snapshots, and the status says whether the rollback is under way. */
  lemma RollbackWrites(w: World, q: RollbackRequest, modelReady: bool, now: int, i: nat)
    requires w.release.Some? && IsTarget(w, i)
    ensures var ((r, outcome), p, row) := (HandleRollback(w, q, modelReady, now), w.release.value, w.snapshots[i]);
      if outcome == Restored then
        r.release == Some(Release(Stable, row.model, row.index, None, None, None, None, None, None, Some(now)))
      else
        && r.snapshots == w.snapshots
        && r.release == Some(if Admits(w, q, i) then p.(status := RollbackPreparing) else p)
  {
    hide ExcludeProjects, RecordRollback, RollbackTarget, Admits, AdmissionOf, Begun, IndexRestorable;
    TargetRow(w, i);
    GuardsAdmit(w, q, i);
    BegunServes(w, q, modelReady, now);
    BegunRelease(w, q, i);
  }

  lemma BegunRelease(w: World, q: RollbackRequest, i: nat)
    requires w.release.Some? && IsTarget(w, i)
    ensures Begun(w, q).release
      == Some(if Admits(w, q, i) then w.release.value.(status := RollbackPreparing) else w.release.value)
  {
    hide AdmissionOf, Admits, ExcludeProjects;
    GuardsAdmit(w, q, i);
    if Admits(w, q, i) && w.release.value.status != Stable { Preparing(w, q, i); }
  }

  lemma Preparing(w: World, q: RollbackRequest, i: nat)
    requires w.release.Some? && i < |w.snapshots| && Admits(w, q, i) && w.release.value.status != Stable
    ensures w.release.value.(status := RollbackPreparing) == w.release.value
  {
  }

  /** Without a release row or a target nothing happens. */
  lemma NothingToRestore(w: World, q: RollbackRequest, modelReady: bool, now: int)
    requires w.release.None? || forall i :: 0 <= i < |w.snapshots| ==> w.snapshots[i].status != PreviousStable
    ensures HandleRollback(w, q, modelReady, now) ==
      (w, if q.version != "v1" then UnsupportedVersion else if w.release.None? then MissingRelease else MissingSnapshot)
  {
  }

  // ---- opening a candidate ----

  /** The name of the index that the run's candidate gets. */
  function IndexName(run: PipelineRun, model: string): string {
    match run.candidateIndex
    case Some(name) => if |name| > 0 then name else "candidate-index-" + model
    case None => "candidate-index-" + model
  }

  ghost predicate Releasable(w: World, runId: nat) {
    runId in w.runs && w.runs[runId].status == ReadyForRelease && w.runs[runId].candidateModel.Some? && w.release.Some?
  }

  /** A candidate opens exactly when its run is ready for release and names a model, and the release is stable. It is
      found open exactly when the open candidate has the run's model and index. Only then does anything change. */
  lemma OpenOutcomes(w: World, runId: nat, now: int)
    ensures var (r, outcome) := (Open(w, runId, now), OpenOutcomeOf(w, runId));
      && (outcome == Opened <==> Releasable(w, runId) && w.release.value.status == Stable)
      && (outcome == AlreadyOpen <==>
           && Releasable(w, runId) && w.release.value.status == CandidateReindexing
           && w.release.value.candidateModel == w.runs[runId].candidateModel
           && w.release.value.candidateIndex
              == Some(IndexName(w.runs[runId], w.runs[runId].candidateModel.value)))
      && (outcome == OpenRefused ==> r == w)
    ensures var (r, outcome) := (Open(w, runId, now), OpenOutcomeOf(w, runId));
      outcome != OpenRefused ==>
        var (p, run, name) :=
          (w.release.value, w.runs[runId], IndexName(w.runs[runId], w.runs[runId].candidateModel.value));
        && r.release == Some(
             if outcome == AlreadyOpen then p
             else Release(CandidateReindexing, p.activeModel, p.activeIndex, p.previousModel, p.previousIndex,
               run.candidateModel, Some(name), Some(now), None, p.switchedAt))
        && r.runs == w.runs[runId :=
             if run.candidateIndex.Some? then run else run.(candidateIndex := Some(name))]
  {
  }

  // ---- gated cutover ----

  /** The run's model is the open candidate. */
  ghost predicate IsCandidate(w: World, runId: nat) {
    && runId in w.runs && w.release.Some? && w.release.value.status == CandidateReindexing
    && w.release.value.candidateModel.Some? && w.release.value.candidateIndex.Some?
    && w.release.value.candidateOpenedAt.Some? && w.runs[runId].candidateModel == w.release.value.candidateModel
  }

  /** The vector is one of a ready video, in a live index other than the active and the candidate one, and its chunk
      has none in the active one. */
  ghost predicate LeftBehind(w: World, index: string, c: nat)
    requires w.release.Some?
  {
    && (index, c) in w.entries && index in w.catalog && !w.catalog[index].deleted
    && index != w.release.value.activeIndex && Some(index) != w.release.value.candidateIndex
    && w.entries[(index, c)].video in w.videos && w.videos[w.entries[(index, c)].video].status == Ready
    && (w.release.value.activeIndex, c) !in w.entries
  }

  lemma LeftBehindIff(w: World)
    requires w.release.Some?
    ensures OldOnlyLeft(w, w.release.value.activeIndex, ExcludedIndexes(w.release.value))
      <==> exists index, c :: LeftBehind(w, index, c)
  {
    var r := w.release.value;
    if OldOnlyLeft(w, r.activeIndex, ExcludedIndexes(r)) {
      var s :| s in SourceIndexes(w, ExcludedIndexes(r)) && OldOnlyVideos(w, s, r.activeIndex) != {};
      var v :| v in OldOnlyVideos(w, s, r.activeIndex);
      var p: (string, nat) :| p in w.entries && p.0 == s && (r.activeIndex, p.1) !in w.entries
        && w.entries[p].video in w.videos && w.videos[w.entries[p].video].status == Ready;
      assert p == (p.0, p.1) && LeftBehind(w, p.0, p.1);
    }
    if index, c :| LeftBehind(w, index, c) {
      assert index in SourceIndexes(w, ExcludedIndexes(r));
      assert w.entries[(index, c)].video in OldOnlyVideos(w, index, r.activeIndex);
    }
  }

  /** Each outcome of a cutover, exactly. */
  lemma CutoverOutcomes(w: World, runId: nat, modelReady: bool)
    ensures var outcome := CutoverOutcomeOf(w, runId, modelReady);
      && (outcome == CutoverRefused <==> !IsCandidate(w, runId))
      && (outcome == BlockedNotReady <==> IsCandidate(w, runId) && !modelReady)
      && (outcome == BlockedLegacyVectorsRemain <==>
           IsCandidate(w, runId) && modelReady && exists index, c :: LeftBehind(w, index, c))
      && (outcome == CutOver <==>
           IsCandidate(w, runId) && modelReady && forall index, c :: !LeftBehind(w, index, c))
  {
    hide OldOnlyLeft, LeftBehind;
    if w.release.Some? { LeftBehindIff(w); }
  }

  /** A cutover makes the candidate active and the active pair the previous one, ends the run, and records the switch
      at the run's cutover time or else now; a cutover that does not go through changes nothing. */
  lemma CutoverWrites(w: World, runId: nat, modelReady: bool, id: nat, now: int)
    ensures var r := Cutover(w, runId, modelReady, id, now);
      if IsCandidate(w, runId) && modelReady && forall index, c :: !LeftBehind(w, index, c) then
        var (p, t) :=
          (w.release.value, if w.runs[runId].cutoverTime.Some? then w.runs[runId].cutoverTime.value else now);
        && r.release == Some(Release(Stable, p.candidateModel.value, p.candidateIndex.value, Some(p.activeModel),
             Some(p.activeIndex), None, None, None, None, Some(t)))
        && r.runs == w.runs[runId := w.runs[runId].(status := DeployCompleted, cutoverTime := Some(t))]
        && |r.snapshots| == |w.snapshots| + 1
        && (forall i :: 0 <= i < |w.snapshots| ==> r.snapshots[i] == w.snapshots[i].(status := r.snapshots[i].status))
        && var row := r.snapshots[|w.snapshots|];
          row == Snapshot(id, p.candidateModel.value, p.candidateIndex.value, Active, row.previous, t)
      else r == w
  {
    hide CutoverOutcomeOf, OldOnlyLeft, LeftBehind, Find;
    CutoverOutcomes(w, runId, modelReady);
  }

  // ---- storing an ingest ----

  /** The ingest stores its chunks: it has some, and its video is there and not being deleted. */
  ghost predicate GoesThrough(w: World, job: nat, inputs: map<nat, Option<string>>) {
    && (exists c :: c in inputs)
    && job in w.jobs && w.jobs[job].video in w.videos && w.videos[w.jobs[job].video].status != Deleting
  }

  /** A chunk of an earlier ingest of the same video by the same STT model and the same embedding model. */
  ghost predicate IsReplaced(w: World, j: IngestJob, stt: string, c: nat) {
    && c in w.chunks && w.chunks[c].video == j.video && w.chunks[c].sttModel == stt
    && w.chunks[c].embeddingModel == j.model
  }

  /** Exactly those chunks leave, with all their vectors; every other chunk and vector stays as it was. */
  lemma IngestReplaces(w: World, job: nat, stt: string, inputs: map<nat, Option<string>>, vectors: map<nat, Vector>)
    requires Inv(w) && Allowed(w, PersistStep(job, stt, inputs, vectors)) && GoesThrough(w, job, inputs)
    ensures var x, j := Persist(w, job, stt, inputs, vectors), w.jobs[job];
      && (forall c <- w.chunks.Keys ::
           && (c !in x.chunks <==> IsReplaced(w, j, stt, c))
           && (c in x.chunks ==> x.chunks[c] == w.chunks[c]))
      && (forall p <- w.entries.Keys ::
           && (p !in x.entries <==> IsReplaced(w, j, stt, p.1))
           && (p in x.entries ==> x.entries[p] == w.entries[p]))
  {
    hide ReleaseIsTop, PreviousIsBelow, CandidateFields, CandidateApart, AddEntries, WithoutChunks, ReplaceChunks;
  }

  /** New are the chunks of the ingest, each with its one vector in the job's index, and that the video is ready. */
  ghost predicate Adds(
    w: World, x: World, j: IngestJob, stt: string, inputs: map<nat, Option<string>>, vectors: map<nat, Vector>)
  {
    && (forall c <- inputs.Keys :: (
         && c in x.chunks && x.chunks[c] == Chunk(j.video, stt, j.model, inputs[c]) && c in vectors
         && (j.index, c) in x.entries && x.entries[(j.index, c)] == Entry(j.video, j.model, vectors[c])))
    && (forall c <- x.chunks.Keys :: c in w.chunks || c in inputs)
    && (forall p <- x.entries.Keys :: p in w.entries || (p.0 == j.index && p.1 in inputs))
    && (forall v :: v in x.videos <==> v in w.videos)
    && (forall v <- w.videos.Keys :: (
         v in x.videos && x.videos[v] == if v == j.video then Video(w.videos[v].project, Ready) else w.videos[v]))
  }

  lemma IngestAdds(w: World, job: nat, stt: string, inputs: map<nat, Option<string>>, vectors: map<nat, Vector>)
    requires Allowed(w, PersistStep(job, stt, inputs, vectors)) && GoesThrough(w, job, inputs)
    ensures Adds(w, Persist(w, job, stt, inputs, vectors), w.jobs[job], stt, inputs, vectors)
    ensures Persist(w, job, stt, inputs, vectors).jobs == w.jobs - {job}
  {
    hide AddEntries, WithoutChunks, ReplaceChunks, SameVersionChunks;
  }

  lemma IngestStoresNothing(
    w: World, job: nat, stt: string, inputs: map<nat, Option<string>>, vectors: map<nat, Vector>)
    requires !GoesThrough(w, job, inputs)
    ensures var x := Persist(w, job, stt, inputs, vectors);
      x == w.(jobs := x.jobs) && forall k <- w.jobs.Keys :: k == job || (k in x.jobs && x.jobs[k] == w.jobs[k])
  {
  }

  /** An ingest reads the active pair, and none while a rollback is being prepared. */
  lemma IngestReads(w: World, job: nat, v: nat)
    ensures var x := LoadTarget(w, job, v);
      x.jobs ==
        if w.release.Some? && w.release.value.status != RollbackPreparing
        then w.jobs[job := IngestJob(v, w.release.value.activeIndex, w.release.value.activeModel)] else w.jobs
  {
  }

  // ---- queueing an item ----

  /** An item is queued for a video exactly when some vector of it is left behind in the source index, unless it has an
      item there that is not finished. */
  lemma QueuedIff(w: World, v: nat, source: string)
    requires w.release.Some?
    ensures var (x, r) := (EnqueueItem(w, v, source), w.release.value);
      var key := ItemKey(v, source, r.activeIndex);
      if (exists c :: LeftBehind(w, source, c) && w.entries[(source, c)].video == v)
        && (key in w.items ==> w.items[key].status == Succeeded || w.items[key].status == Skipped)
      then x.items == w.items[key := Item(Pending, r.activeModel)]
      else x == w
  {
    var r := w.release.value;
    if v in OldOnlyVideos(w, source, r.activeIndex) && source in SourceIndexes(w, ExcludedIndexes(r)) {
      var p: (string, nat) :| p in w.entries && p.0 == source && (r.activeIndex, p.1) !in w.entries
        && w.entries[p].video == v && v in w.videos && w.videos[v].status == Ready;
      assert p == (source, p.1) && LeftBehind(w, source, p.1);
    }
  }

  // ---- writing vectors ----

  /** The table after the vectors of a video were written to an index under a model. */
  ghost predicate Written(
    w: World, x: World, index: string, video: nat, model: string, vectors: map<nat, Vector>)
  {
    && (forall p :: p in x.entries <==> p in w.entries || (p.0 == index && p.1 in vectors))
    && (forall p <- x.entries.Keys ::
         if p.0 == index && p.1 in vectors then x.entries[p] == Entry(video, model, vectors[p.1])
         else p in w.entries && x.entries[p] == w.entries[p])
  }

  /** A re-embedding writes the vectors under the model it asks for, unless its video is gone. */
  lemma ReembedWrites(w: World, q: Reembedding, vectors: map<nat, Vector>)
    ensures if q.video in w.videos then Written(w, Reembed(w, q, vectors), q.index, q.video, q.model, vectors)
      else Reembed(w, q, vectors) == w
  {
    hide AddEntries;
  }

  /** A reindex item writes to its target under the model it was queued for, and ends with the status. */
  lemma ReindexWrites(w: World, key: ItemKey, vectors: map<nat, Vector>, status: ItemStatus)
    ensures var x := ReindexItem(w, key, vectors, status);
      if key in w.items then
        && Written(w, x, key.target, key.video, w.items[key].targetModel, vectors)
        && x.items == w.items[key := Item(status, w.items[key].targetModel)]
      else x == w
  {
    hide AddEntries;
  }

  // ---- the index catalog ----

  /** The pairs of the release are in the catalog with their models; marks of deletion and other rows stay. */
  lemma Catalogued(w: World, dimension: nat, index: string)
    requires w.release.Some?
    ensures var (x, r) := (CatalogRelease(w, dimension), w.release.value);
      var deleted := index in w.catalog && w.catalog[index].deleted;
      var previous, candidate := if r.previousModel.Some? then r.previousIndex else None,
        if r.candidateModel.Some? then r.candidateIndex else None;
      if candidate == Some(index) then
        index in x.catalog && x.catalog[index] == CatalogRow(r.candidateModel.value, dimension, deleted)
      else if previous == Some(index) then
        index in x.catalog && x.catalog[index] == CatalogRow(r.previousModel.value, dimension, deleted)
      else if index == r.activeIndex then
        index in x.catalog && x.catalog[index] == CatalogRow(r.activeModel, dimension, deleted)
      else (index in x.catalog <==> index in w.catalog) && (index in x.catalog ==> x.catalog[index] == w.catalog[index])
  {
  }

  // ---- recovery ----

  /** The video's chunk has no vector of the model in the index. */
  ghost predicate LacksVector(w: World, c: nat, model: string, index: string) {
    (index, c) !in w.entries || w.entries[(index, c)].model != model
  }

  /** The video has no chunk, or one without a vector of the active model in the active index. */
  ghost predicate NeedsVectors(w: World, v: nat)
    requires w.release.Some?
  {
    || (forall c <- w.chunks.Keys :: w.chunks[c].video != v)
    || exists c <- w.chunks.Keys ::
         w.chunks[c].video == v && LacksVector(w, c, w.release.value.activeModel, w.release.value.activeIndex)
  }

  lemma RestoredVideo(w: World, v: nat)
    requires w.release.Some?
    ensures VideoRestored(w, v, w.release.value.activeModel, w.release.value.activeIndex) <==> !NeedsVectors(w, v)
  {
    var (m, i) := (w.release.value.activeModel, w.release.value.activeIndex);
    if VideoRestored(w, v, m, i) {
      var c :| c in ChunksOf(w, v);
      assert c in w.chunks && w.chunks[c].video == v;
      forall c <- w.chunks.Keys | w.chunks[c].video == v ensures !LacksVector(w, c, m, i) {
        assert c in ChunksOf(w, v);
      }
    }
    if !NeedsVectors(w, v) {
      var c :| c in w.chunks && w.chunks[c].video == v;
      assert c in ChunksOf(w, v);
      assert forall c <- ChunksOf(w, v) :: !LacksVector(w, c, m, i);
    }
  }

  ghost predicate IsExcluded(w: World, p: nat) { p in w.projects && w.projects[p] == RollbackExcluded }

  lemma DispatchedIff(w: World, v: nat)
    requires w.release.Some?
    ensures v in DispatchSet(w, w.release.value.activeModel, w.release.value.activeIndex) <==>
      && v in w.videos && w.videos[v].status == Ready && w.videos[v].project.Some?
      && IsExcluded(w, w.videos[v].project.value) && NeedsVectors(w, v)
  {
    hide VideoRestored, NeedsVectors;
    RestoredVideo(w, v);
  }

  /** A scan asks for exactly the ready videos of excluded projects that need vectors, for the active pair. */
  lemma ScanAsksFor(w: World, q: Reembedding)
    ensures q in ScanAndRecover(w).requests <==>
      || q in w.requests
      || (&& w.release.Some? && w.release.value.status == Stable
          && q.model == w.release.value.activeModel && q.index == w.release.value.activeIndex
          && q.video in w.videos && w.videos[q.video].status == Ready && w.videos[q.video].project.Some?
          && IsExcluded(w, w.videos[q.video].project.value) && NeedsVectors(w, q.video))
  {
    hide DispatchSet, Dispatch, Reenter, NeedsVectors;
    assert forall p :: IsExcluded(w, p) ==> p in ExcludedProjects(w);
    if w.release.Some? {
      DispatchedIff(w, q.video);
      DispatchAsks(w, w.release.value.activeModel, w.release.value.activeIndex, q);
    }
  }

  lemma DispatchAsks(w: World, model: string, index: string, q: Reembedding)
    ensures q in Dispatch(w, model, index).requests
      <==> q in w.requests || (q.model == model && q.index == index && q.video in DispatchSet(w, model, index))
  {
    hide DispatchSet;
  }

  /** The project has a ready video, and none of its ready videos needs vectors. */
  ghost predicate ComesBack(w: World, p: nat)
    requires w.release.Some?
  {
    && (exists v <- w.videos.Keys :: w.videos[v] == Video(Some(p), Ready))
    && (forall v <- w.videos.Keys :: w.videos[v] == Video(Some(p), Ready) ==> !NeedsVectors(w, v))
  }

  lemma RestoredProject(w: World, p: nat)
    requires w.release.Some?
    ensures ProjectRestored(w, p, w.release.value.activeModel, w.release.value.activeIndex) <==> ComesBack(w, p)
  {
    hide VideoRestored, NeedsVectors;
    forall v ensures v in ReadyVideos(w, p) <==> v in w.videos && w.videos[v] == Video(Some(p), Ready) {}
    forall v ensures VideoRestored(w, v, w.release.value.activeModel, w.release.value.activeIndex)
      <==> !NeedsVectors(w, v)
    {
      RestoredVideo(w, v);
    }
  }

  /** A scan serves exactly the excluded projects again that come back. */
  lemma ScanServes(w: World, p: nat)
    ensures var x := ScanAndRecover(w);
      && (p in x.projects <==> p in w.projects)
      && (IsExcluded(x, p) <==>
           IsExcluded(w, p) && !(w.release.Some? && w.release.value.status == Stable && ComesBack(w, p)))
  {
    hide DispatchSet, ProjectRestored, ComesBack;
    assert IsExcluded(w, p) ==> p in ExcludedProjects(w);
    if w.release.Some? {
      var r := w.release.value;
      RestoredProject(w, p);
      SameRestoredProject(w, Dispatch(w, r.activeModel, r.activeIndex), p);
    }
  }

  lemma SameRestoredProject(w: World, r: World, p: nat)
    requires r == w.(requests := r.requests)
    ensures forall m, i :: ProjectRestored(r, p, m, i) == ProjectRestored(w, p, m, i)
  {
  }

  // ---- purge ----

  /** A purge takes exactly the video's chunks, with all their vectors, and its items. */
  lemma PurgeTakes(w: World, v: nat)
    requires DataLinked(w)
    ensures var x := PurgeVideo(w, v);
      && (forall c :: c in x.chunks <==> c in w.chunks && w.chunks[c].video != v)
      && (forall c <- x.chunks.Keys :: x.chunks[c] == w.chunks[c])
      && (forall p :: p in x.entries <==> p in w.entries && w.entries[p].video != v)
      && (forall p <- x.entries.Keys :: x.entries[p] == w.entries[p])
      && (forall k :: k in x.items <==> k in w.items && k.video != v)
      && (forall k <- x.items.Keys :: x.items[k] == w.items[k])
  {
  }

  /** A video fails or is deleted unless it is being deleted already; an uploaded one is not ready yet. */
  lemma VideoStatuses(w: World, v: nat, status: VideoStatus, project: Option<nat>)
    ensures SetVideoStatus(w, v, status).videos ==
      if v in w.videos && w.videos[v].status != Deleting
      then w.videos[v := Video(w.videos[v].project, status)] else w.videos
    ensures Apply(w, FailStep(v)) == SetVideoStatus(w, v, Unready)
    ensures Apply(w, DeleteStep(v)) == SetVideoStatus(w, v, Deleting)
    ensures Apply(w, UploadStep(v, project)).videos == w.videos[v := Video(project, Unready)]
  {
  }
}
