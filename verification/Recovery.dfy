/** Projects that a rollback excluded come back when their videos are searchable again. */
module Recovery {
  import opened Wrappers
  import opened SnapshotRegistry
  import opened Serving
  import opened ServingInvariant
  import opened IndexModels
  import opened Coverage

  predicate Excluded(w: World, p: nat) {
    p in w.projects && w.projects[p] == RollbackExcluded
  }

  /** Everything the project has ready is in the active index. */
  ghost predicate Searchable(w: World, p: nat)
    requires w.release.Some?
  {
    forall c :: IsReady(w, c) && w.videos[w.chunks[c].video].project == Some(p) ==>
      (w.release.value.activeIndex, c) in w.entries
  }

  predicate HasVideosWithChunks(w: World, p: nat) {
    && ReadyVideos(w, p) != {}
    && forall v <- ReadyVideos(w, p) :: ChunksOf(w, v) != {}
  }

  /** With one model to an index, a project is restored when its chunks are there at all. */
  lemma RestoredIff(w: World, p: nat, models: map<string, string>)
    requires w.release.Some? && Stamped(w, models)
    ensures ProjectRestored(w, p, w.release.value.activeModel, w.release.value.activeIndex)
      <==> HasVideosWithChunks(w, p) && Searchable(w, p)
  {
    hide RowsStamped;
    var r := w.release.value;
    if HasVideosWithChunks(w, p) && Searchable(w, p) {
      forall v <- ReadyVideos(w, p), c <- ChunksOf(w, v)
        ensures (r.activeIndex, c) in w.entries && w.entries[(r.activeIndex, c)].model == r.activeModel
      {
        assert IsReady(w, c);
      }
    }
    if ProjectRestored(w, p, r.activeModel, r.activeIndex) {
      forall c | IsReady(w, c) && w.videos[w.chunks[c].video].project == Some(p)
        ensures (r.activeIndex, c) in w.entries
      {
        assert w.chunks[c].video in ReadyVideos(w, p) && c in ChunksOf(w, w.chunks[c].video);
      }
    }
  }

  /** A scan serves an excluded project again exactly when it is fully searchable. */
  lemma ScanReentersIff(w: World, p: nat, models: map<string, string>)
    requires w.release.Some? && w.release.value.status == Stable && Stamped(w, models) && Excluded(w, p)
    ensures !Excluded(ScanAndRecover(w), p) <==> HasVideosWithChunks(w, p) && Searchable(w, p)
  {
    RestoredIff(w, p, models);
    hide Stamped, Searchable, HasVideosWithChunks, DispatchSet, ProjectRestored;
    var r := w.release.value;
    assert p in ExcludedProjects(w);
    SameProjectRestored(w, Dispatch(w, r.activeModel, r.activeIndex), p);
  }

  lemma SameProjectRestored(w: World, r: World, p: nat)
    requires r == w.(requests := r.requests)
    ensures forall m, i :: ProjectRestored(r, p, m, i) == ProjectRestored(w, p, m, i)
  {
  }

  lemma ExclusionReentersNone(w: World, model: string, p: nat)
    requires Excluded(w, p)
    ensures Excluded(ExcludeProjects(w, model), p)
  {
  }

  lemma RollbackReentersNone(w: World, q: RollbackRequest, modelReady: bool, now: int, p: nat)
    requires Excluded(w, p)
    ensures Excluded(HandleRollback(w, q, modelReady, now).0, p)
  {
    hide ContinueRestore, RollbackTarget, ExcludeProjects, MarkPreparing, MatchesSwitch;
    match AdmissionOf(w, q)
    case Rejected(_) =>
    case Continue =>
    case Start => ExclusionReentersNone(w, w.release.value.activeModel, p);
  }

  lemma OnlyScansReenter(w: World, step: Step, p: nat)
    requires Excluded(w, p) && !Excluded(Apply(w, step), p)
    ensures step.RecoveryStep? && w.release.Some? && w.release.value.status == Stable
  {
    hide Open, Cutover, Persist, LoadTarget, EnqueueItem, ReindexItem, CatalogRelease, Reembed, SetVideoStatus;
    hide PurgeVideo;
    hide HandleRollback, ExcludedProjects, Reenter, Dispatch;
    if step.RollbackStep? { RollbackReentersNone(w, step.request, step.modelReady, step.now, p); }
  }

  /** No step serves an excluded project again unless it is fully searchable. */
  lemma ReentryIsSafe(w: World, step: Step, p: nat, models: map<string, string>)
    requires w.release.Some? && Stamped(w, models) && Excluded(w, p)
    ensures !Excluded(Apply(w, step), p) ==> HasVideosWithChunks(w, p) && Searchable(w, p)
  {
    hide Stamped, HasVideosWithChunks, Searchable, ScanAndRecover;
    if !Excluded(Apply(w, step), p) {
      OnlyScansReenter(w, step, p);
      ScanReentersIff(w, p, models);
    }
  }

  // ---- recovery converges ----

  /** Serving does not switch, what is ingested goes into the active index, and a video does not get ready again
      over older chunks missing there. */
  ghost predicate Settled(w: World, step: Step) {
    && !step.OpenStep? && !step.CutoverStep? && !step.RollbackStep?
    && (step.PersistStep? && Stores(w, step.job, step.inputs) && w.release.Some? ==>
        var j := w.jobs[step.job];
        && j.index == w.release.value.activeIndex
        && (w.videos[j.video].status == Ready
            || forall c <- Leftovers(w, j.video, step.stt, j.model) :: (w.release.value.activeIndex, c) in w.entries))
  }

  /** The videos still waited for when a step re-embeds all chunks of its video. */
  function Remaining(w: World, step: Step, pending: set<nat>): set<nat> {
    if step.ReembedStep? && w.release.Some? && step.reembedding.index == w.release.value.activeIndex
       && step.vectors.Keys == ChunksOf(w, step.reembedding.video)
    then pending - {step.reembedding.video} else pending
  }

  /** Only pending videos of excluded projects have chunks missing from the active index. */
  ghost predicate OnlyPendingMissing(w: World, pending: set<nat>) {
    w.release.Some? &&
      forall c :: IsReady(w, c) && w.videos[w.chunks[c].video].project.Some?
          && Excluded(w, w.videos[w.chunks[c].video].project.value) && w.chunks[c].video !in pending
        ==> (w.release.value.activeIndex, c) in w.entries
  }

  lemma ScanDispatchesMissing(w: World)
    requires w.release.Some? && w.release.value.status == Stable
    ensures OnlyPendingMissing(ScanAndRecover(w),
      DispatchSet(w, w.release.value.activeModel, w.release.value.activeIndex))
  {
    hide ProjectRestored;
    var r := w.release.value;
    forall c | IsReady(w, c) && w.videos[w.chunks[c].video].project.Some?
      && Excluded(w, w.videos[w.chunks[c].video].project.value)
      && w.chunks[c].video !in DispatchSet(w, r.activeModel, r.activeIndex)
      ensures (r.activeIndex, c) in w.entries
    {
      assert c in ChunksOf(w, w.chunks[c].video);
    }
  }

  lemma PersistKeepsPending(
    w: World, job: nat, stt: string, inputs: map<nat, Option<string>>, vectors: map<nat, Vector>, pending: set<nat>)
    requires Inv(w) && OnlyPendingMissing(w, pending)
    requires Allowed(w, PersistStep(job, stt, inputs, vectors)) && Settled(w, PersistStep(job, stt, inputs, vectors))
    ensures OnlyPendingMissing(Persist(w, job, stt, inputs, vectors), pending)
  {
    hide ReleaseIsTop, PreviousIsBelow, CandidateFields, CandidateApart, DataLinked;
    hide AddEntries, WithoutChunks, ReplaceChunks, SameVersionChunks;
    if Stores(w, job, inputs) {
      var j, x := w.jobs[job], Persist(w, job, stt, inputs, vectors);
      forall c | IsReady(x, c) && x.videos[x.chunks[c].video].project.Some?
        && Excluded(x, x.videos[x.chunks[c].video].project.value) && x.chunks[c].video !in pending
        ensures (x.release.value.activeIndex, c) in x.entries
      {
        if c in inputs {
          NewVectors(w, job, stt, inputs, vectors, c);
        } else {
          OldVectors(w, job, stt, inputs, vectors, c);
          assert w.chunks[c].video == j.video ==> c in Leftovers(w, j.video, stt, j.model);
        }
      }
    }
  }

  lemma OtherKeepsPending(w: World, step: Step, pending: set<nat>)
    requires Inv(w) && OnlyPendingMissing(w, pending) && Allowed(w, step) && Settled(w, step) && !step.PersistStep?
    ensures OnlyPendingMissing(Apply(w, step), Remaining(w, step, pending))
  {
    hide ReleaseIsTop, PreviousIsBelow, CandidateFields, CandidateApart, DataLinked;
    hide AddEntries, WithoutChunks, DispatchSet, ProjectRestored, OldOnlyVideos;
  }

  ghost predicate SettledRun(w: World, steps: seq<Step>)
    decreases |steps|
  {
    steps == [] || (Allowed(w, steps[0]) && Settled(w, steps[0]) && SettledRun(Apply(w, steps[0]), steps[1..]))
  }

  ghost function RemainingAfter(w: World, steps: seq<Step>, pending: set<nat>): set<nat>
    decreases |steps|
  {
    if steps == [] then pending else RemainingAfter(Apply(w, steps[0]), steps[1..], Remaining(w, steps[0], pending))
  }

  lemma SettledRunKeepsPending(w: World, steps: seq<Step>, pending: set<nat>)
    requires Inv(w) && OnlyPendingMissing(w, pending) && SettledRun(w, steps)
    ensures Inv(Run(w, steps)) && Run(w, steps).release == w.release
    ensures OnlyPendingMissing(Run(w, steps), RemainingAfter(w, steps, pending))
    decreases |steps|
  {
    if steps != [] {
      var step := steps[0];
      StepKeepsInv(w, step);
      if step.PersistStep? {
        PersistKeepsPending(w, step.job, step.stt, step.inputs, step.vectors, pending);
      } else {
        OtherKeepsPending(w, step, pending);
      }
      SettledKeepsRelease(w, step);
      SettledRunKeepsPending(Apply(w, step), steps[1..], Remaining(w, step, pending));
    }
  }

  lemma SettledKeepsRelease(w: World, step: Step)
    requires Settled(w, step)
    ensures Apply(w, step).release == w.release
  {
  }

  /** Once all re-embeddings that a scan asked for have succeeded, nothing is missing. */
  lemma SettledRunCompletes(w: World, steps: seq<Step>)
    requires Inv(w) && w.release.value.status == Stable && SettledRun(ScanAndRecover(w), steps)
    requires RemainingAfter(ScanAndRecover(w), steps,
      DispatchSet(w, w.release.value.activeModel, w.release.value.activeIndex)) == {}
    ensures var x := Run(ScanAndRecover(w), steps);
      x.release == w.release && OnlyPendingMissing(x, {})
  {
    StepKeepsInv(w, RecoveryStep);
    ScanDispatchesMissing(w);
    hide Inv, DispatchSet, OnlyPendingMissing;
    SettledRunKeepsPending(ScanAndRecover(w), steps,
      DispatchSet(w, w.release.value.activeModel, w.release.value.activeIndex));
  }

  lemma SettledRunStamps(w: World, steps: seq<Step>, models: map<string, string>)
    requires Stamped(w, models) && SettledRun(w, steps)
    ensures Stamped(Run(w, steps), models)
    decreases |steps|
  {
    if steps != [] {
      hide Stamped;
      StepStamps(w, steps[0], models);
      assert models + map[] == models;
      SettledRunStamps(Apply(w, steps[0]), steps[1..], models);
    }
  }

  lemma RecoveryStamps(w: World, steps: seq<Step>, models: map<string, string>)
    requires Stamped(w, models) && SettledRun(ScanAndRecover(w), steps)
    ensures Stamped(Run(ScanAndRecover(w), steps), models)
  {
    hide Stamped, SettledRun, Run;
    StepStamps(w, RecoveryStep, models);
    assert models + map[] == models;
    SettledRunStamps(ScanAndRecover(w), steps, models);
  }

  /** If every re-embedding that a scan asks for succeeds while serving does not switch, the next scan
      serves exactly those excluded projects again that have a ready video and whose ready videos all
      have chunks. Ingests, deletions and reindexing may go on meanwhile. */
  lemma RecoveryConverges(w: World, steps: seq<Step>, models: map<string, string>, p: nat)
    requires Inv(w) && w.release.value.status == Stable && SettledRun(ScanAndRecover(w), steps)
    requires RemainingAfter(ScanAndRecover(w), steps,
      DispatchSet(w, w.release.value.activeModel, w.release.value.activeIndex)) == {}
    requires Stamped(w, models)
    requires Excluded(Run(ScanAndRecover(w), steps), p)
    ensures var x := Run(ScanAndRecover(w), steps);
      !Excluded(ScanAndRecover(x), p) <==> HasVideosWithChunks(x, p)
  {
    SettledRunCompletes(w, steps);
    RecoveryStamps(w, steps, models);
    hide Inv, SettledRun, Stamped, DispatchSet, ReadyVideos, ChunksOf, ScanAndRecover, HasVideosWithChunks;
    ScanReentersIff(Run(ScanAndRecover(w), steps), p, models);
  }
}
