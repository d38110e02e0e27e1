/** Vectors of different models cannot be compared, so an index must hold those of one model only. */
module IndexModels {
  import opened Wrappers
  import opened SnapshotRegistry
  import opened Serving
  import opened ServingInvariant

  predicate PairIn(models: map<string, string>, index: Option<string>, model: Option<string>) {
    index.Some? && model.Some? ==> index.value in models && models[index.value] == model.value
  }

  ghost predicate ReleaseStamped(r: Release, models: map<string, string>) {
    && PairIn(models, Some(r.activeIndex), Some(r.activeModel))
    && PairIn(models, r.previousIndex, r.previousModel)
    && PairIn(models, r.candidateIndex, r.candidateModel)
  }

  ghost predicate RowsStamped(snapshots: seq<Snapshot>, models: map<string, string>) {
    forall i :: 0 <= i < |snapshots| ==> PairIn(models, Some(snapshots[i].index), Some(snapshots[i].model))
  }

  ghost predicate EntriesStamped(entries: map<(string, nat), Entry>, models: map<string, string>) {
    forall p <- entries.Keys :: p.0 in models && models[p.0] == entries[p].model
  }

  /** Wherever an index meets a model, `models` names that model for the index. */
  ghost predicate Stamped(w: World, models: map<string, string>) {
    && (w.release.Some? ==> ReleaseStamped(w.release.value, models))
    && RowsStamped(w.snapshots, models)
    && EntriesStamped(w.entries, models)
    && (forall i <- w.catalog.Keys :: i in models && models[i] == w.catalog[i].model)
    && (forall k <- w.items.Keys :: k.target in models && models[k.target] == w.items[k].targetModel)
    && (forall j <- w.jobs.Keys :: w.jobs[j].index in models && models[w.jobs[j].index] == w.jobs[j].model)
    && (forall q <- w.requests :: q.index in models && models[q.index] == q.model)
  }

  /** The indexes a step names for the first time, with their models. */
  function Names(w: World, step: Step): map<string, string> {
    if step.OpenStep? && OpenOutcomeOf(w, step.runId) == Opened
    then map[CandidateIndexFor(w.runs[step.runId]) := w.runs[step.runId].candidateModel.value]
    else map[]
  }

  /** The step gives no index name to a second model. */
  predicate Agrees(w: World, step: Step, models: map<string, string>) {
    forall i <- Names(w, step).Keys :: i in models ==> models[i] == Names(w, step)[i]
  }

  lemma OpenStamps(w: World, runId: nat, now: int, models: map<string, string>)
    requires Stamped(w, models) && Agrees(w, OpenStep(runId, now), models)
    ensures Stamped(Open(w, runId, now), models + Names(w, OpenStep(runId, now)))
  {
    hide CandidateIndexFor, RecordCandidateIndex, Stamped;
    var r, named := Open(w, runId, now), Names(w, OpenStep(runId, now));
    match OpenOutcomeOf(w, runId)
    case Opened =>
      MoreNames(w, models, named);
      OpenedStamps(w, r, w.runs[runId].candidateModel.value, CandidateIndexFor(w.runs[runId]), now, models + named);
    case AlreadyOpen => SameStamps(w, r, models); assert models + named == models;
    case OpenRefused => assert models + named == models;
  }

  lemma MoreNames(w: World, models: map<string, string>, named: map<string, string>)
    requires Stamped(w, models) && forall i <- named.Keys :: i in models ==> models[i] == named[i]
    ensures Stamped(w, models + named)
  {
  }

  lemma SameStamps(w: World, r: World, models: map<string, string>)
    requires Stamped(w, models) && r == w.(runs := r.runs)
    ensures Stamped(r, models)
  {
    hide RowsStamped, EntriesStamped, ReleaseStamped;
  }

  lemma OpenedStamps(w: World, r: World, model: string, index: string, now: int, models: map<string, string>)
    requires Stamped(w, models) && w.release.Some? && index in models && models[index] == model
    requires r == w.(release := r.release, runs := r.runs)
    requires r.release == Some(w.release.value.(status := CandidateReindexing, candidateModel := Some(model),
      candidateIndex := Some(index), candidateOpenedAt := Some(now), candidateReadyAt := None))
    ensures Stamped(r, models)
  {
    hide RowsStamped, EntriesStamped;
  }

  lemma RowUpdateStamps(rows: seq<Snapshot>, i: Option<nat>, status: Status, models: map<string, string>)
    requires RowsStamped(rows, models) && (i.Some? ==> i.value < |rows|)
    ensures RowsStamped(SetStatus(rows, i, status), models)
  {
  }

  lemma CutoverStamps(w: World, runId: nat, modelReady: bool, id: nat, now: int, models: map<string, string>)
    requires Stamped(w, models)
    ensures Stamped(Cutover(w, runId, modelReady, id, now), models)
  {
    hide OldOnlyLeft, SetStatus, Find;
    var demoted := SetStatus(w.snapshots, Find(w.snapshots, PreviousStable), Superseded);
    RowUpdateStamps(w.snapshots, Find(w.snapshots, PreviousStable), Superseded, models);
    RowUpdateStamps(demoted, Find(demoted, Active), PreviousStable, models);
  }

  lemma RestoreStamps(w: World, now: int, models: map<string, string>)
    requires w.release.Some? && RollbackTarget(w).Some? && Stamped(w, models)
    ensures Stamped(CompleteRestore(w, now), models)
  {
    var rows := w.snapshots;
    var target := Find(rows, PreviousStable);
    var rolled := SetStatus(rows, Find(rows, Active), RolledBack);
    RowUpdateStamps(rows, Find(rows, Active), RolledBack, models);
    RowUpdateStamps(rolled, target, Active, models);
    var before := BeforeNextPrior(rows);
    RowUpdateStamps(before, LatestSuperseded(before), PreviousStable, models);
  }

  lemma RollbackStamps(w: World, q: RollbackRequest, modelReady: bool, now: int, models: map<string, string>)
    requires Stamped(w, models)
    ensures Stamped(HandleRollback(w, q, modelReady, now).0, models)
  {
    hide CompleteRestore, AffectedProjects, IndexRestorable, RowsStamped, EntriesStamped;
    match AdmissionOf(w, q)
    case Rejected(_) =>
    case Continue => RestoreStamps(w, now, models);
    case Start => RestoreStamps(MarkPreparing(ExcludeProjects(w, w.release.value.activeModel)), now, models);
  }

  lemma AddEntriesStamps(
    entries: map<(string, nat), Entry>, index: string, video: nat, model: string, vectors: map<nat, Vector>,
    models: map<string, string>)
    requires EntriesStamped(entries, models) && PairIn(models, Some(index), Some(model))
    ensures EntriesStamped(AddEntries(entries, index, video, model, vectors), models)
  {
    hide AddEntries;
  }

  lemma WithoutChunksStamps(entries: map<(string, nat), Entry>, gone: set<nat>, models: map<string, string>)
    requires EntriesStamped(entries, models)
    ensures EntriesStamped(WithoutChunks(entries, gone), models)
  {
    hide WithoutChunks;
  }

  lemma RestStamps(w: World, r: World, models: map<string, string>)
    requires Stamped(w, models) && EntriesStamped(r.entries, models)
    requires r == w.(jobs := r.jobs, videos := r.videos, chunks := r.chunks, entries := r.entries)
    requires forall j <- r.jobs.Keys :: j in w.jobs && r.jobs[j] == w.jobs[j]
    ensures Stamped(r, models)
  {
    hide EntriesStamped, RowsStamped, ReleaseStamped;
  }

  lemma PersistStamps(
    w: World, job: nat, stt: string, inputs: map<nat, Option<string>>, vectors: map<nat, Vector>,
    models: map<string, string>)
    requires Stamped(w, models)
    ensures Stamped(Persist(w, job, stt, inputs, vectors), models)
  {
    hide AddEntries, WithoutChunks, ReplaceChunks, SameVersionChunks, EntriesStamped, RowsStamped, ReleaseStamped;
    if job in w.jobs {
      var j, gone := w.jobs[job], SameVersionChunks(w, w.jobs[job].video, stt, w.jobs[job].model);
      WithoutChunksStamps(w.entries, gone, models);
      AddEntriesStamps(WithoutChunks(w.entries, gone), j.index, j.video, j.model, vectors, models);
      hide Stamped;
      RestStamps(w, Persist(w, job, stt, inputs, vectors), models);
    }
  }

  lemma WorkStamps(w: World, step: Step, models: map<string, string>)
    requires Stamped(w, models) && (step.ReindexStep? || (step.ReembedStep? && step.reembedding in w.requests))
    ensures Stamped(Apply(w, step), models)
  {
    hide AddEntries, EntriesStamped;
    if step.ReembedStep? {
      var q := step.reembedding;
      AddEntriesStamps(w.entries, q.index, q.video, q.model, step.vectors, models);
    } else if step.key in w.items {
      AddEntriesStamps(w.entries, step.key.target, step.key.video, w.items[step.key].targetModel, step.vectors, models);
    }
  }

  lemma PurgeStamps(w: World, v: nat, models: map<string, string>)
    requires Stamped(w, models)
    ensures Stamped(PurgeVideo(w, v), models)
  {
    hide WithoutChunks, RowsStamped, EntriesStamped, ReleaseStamped, ChunksOf;
    WithoutChunksStamps(w.entries, ChunksOf(w, v), models);
  }

  lemma QueueStamps(w: World, step: Step, models: map<string, string>)
    requires Stamped(w, models) && (step.LoadTargetStep? || step.EnqueueStep? || step.RecoveryStep?)
    ensures Stamped(Apply(w, step), models)
  {
    hide DispatchSet, ExcludedProjects, ProjectRestored, OldOnlyVideos, RowsStamped, EntriesStamped, SourceIndexes;
  }

  lemma CatalogStamps(w: World, dimension: nat, models: map<string, string>)
    requires Stamped(w, models)
    ensures Stamped(CatalogRelease(w, dimension), models)
  {
    hide RowsStamped, EntriesStamped;
  }

  lemma VideoStamps(w: World, r: World, models: map<string, string>)
    requires Stamped(w, models) && r == w.(videos := r.videos, runs := r.runs)
    ensures Stamped(r, models)
  {
    hide RowsStamped, EntriesStamped, ReleaseStamped;
  }

  /** A re-embedding answers a request that was sent. */
  predicate WasAsked(w: World, step: Step) {
    step.ReembedStep? ==> step.reembedding in w.requests
  }

  lemma StepStamps(w: World, step: Step, models: map<string, string>)
    requires Stamped(w, models) && WasAsked(w, step) && Agrees(w, step, models)
    ensures Stamped(Apply(w, step), models + Names(w, step))
  {
    hide Stamped, Open, Cutover, HandleRollback, Persist, LoadTarget, EnqueueItem, ScanAndRecover, CatalogRelease;
    hide PurgeVideo;
    hide SetVideoStatus, ReindexItem, Reembed;
    assert !step.OpenStep? ==> models + Names(w, step) == models;
    match step
    case OpenStep(runId, now) => OpenStamps(w, runId, now, models);
    case CutoverStep(runId, modelReady, id, now) => CutoverStamps(w, runId, modelReady, id, now, models);
    case RollbackStep(q, modelReady, now) => RollbackStamps(w, q, modelReady, now, models);
    case PersistStep(job, stt, inputs, vectors) => PersistStamps(w, job, stt, inputs, vectors, models);
    case ReindexStep(key, vectors, status) => WorkStamps(w, step, models);
    case ReembedStep(q, vectors) => WorkStamps(w, step, models);
    case CatalogStep(dimension) => CatalogStamps(w, dimension, models);
    case LoadTargetStep(_, _) => QueueStamps(w, step, models);
    case EnqueueStep(_, _) => QueueStamps(w, step, models);
    case RecoveryStep => QueueStamps(w, step, models);
    case UploadStep(_, _) => VideoStamps(w, Apply(w, step), models);
    case FailStep(_) => VideoStamps(w, Apply(w, step), models);
    case DeleteStep(_) => VideoStamps(w, Apply(w, step), models);
    case PurgeStep(v) => PurgeStamps(w, v, models);
    case RunStep(_, _) => VideoStamps(w, Apply(w, step), models);
  }

  /** All index names given out in a run, with their models. */
  ghost function NamesIn(w: World, steps: seq<Step>, models: map<string, string>): map<string, string>
    decreases |steps|
  {
    if steps == [] then models else NamesIn(Apply(w, steps[0]), steps[1..], models + Names(w, steps[0]))
  }

  ghost predicate AgreeingRun(w: World, steps: seq<Step>, models: map<string, string>)
    decreases |steps|
  {
    steps == [] || (
      && WasAsked(w, steps[0]) && Agrees(w, steps[0], models)
      && AgreeingRun(Apply(w, steps[0]), steps[1..], models + Names(w, steps[0])))
  }

  /** In every run that gives no index name to a second model, every index holds vectors of one model only, and
      whatever release, snapshot, item, job or request refers to the index means that model. */
  lemma OneModelPerIndex(w: World, steps: seq<Step>, models: map<string, string>)
    requires Stamped(w, models) && AgreeingRun(w, steps, models)
    ensures Stamped(Run(w, steps), NamesIn(w, steps, models))
    decreases |steps|
  {
    if steps != [] {
      StepStamps(w, steps[0], models);
      OneModelPerIndex(Apply(w, steps[0]), steps[1..], models + Names(w, steps[0]));
    }
  }

  // ---- names made from the model ----

  function DefaultName(model: string): string { "candidate-index-" + model }

  /** The run leaves the name of its index to the program, or holds the one the program made. */
  predicate NamedByDefault(run: PipelineRun) {
    run.candidateModel.Some? ==> CandidateIndexFor(run) == DefaultName(run.candidateModel.value)
  }

  predicate AllByDefault(w: World, models: map<string, string>) {
    && (forall id <- w.runs.Keys :: NamedByDefault(w.runs[id]))
    && forall i <- models.Keys :: StartsAsDefault(i) ==> i == DefaultName(models[i])
  }

  predicate StartsAsDefault(index: string) { "candidate-index-" <= index }

  lemma DefaultAgrees(w: World, step: Step, models: map<string, string>)
    requires AllByDefault(w, models)
    ensures Agrees(w, step, models)
    ensures forall i <- (models + Names(w, step)).Keys ::
      StartsAsDefault(i) ==> i == DefaultName((models + Names(w, step))[i])
  {
    if step.OpenStep? && OpenOutcomeOf(w, step.runId) == Opened {
      var model := w.runs[step.runId].candidateModel.value;
      assert NamedByDefault(w.runs[step.runId]);
      forall m | DefaultName(m) == DefaultName(model) ensures m == model { DefaultIsInjective(m, model); }
    }
  }

  lemma DefaultIsInjective(m: string, n: string)
    requires DefaultName(m) == DefaultName(n)
    ensures m == n
  {
    var k := |"candidate-index-"|;
    assert DefaultName(m)[k..] == m && DefaultName(n)[k..] == n;
  }

  lemma RunsStayDefault(w: World, step: Step)
    requires forall id <- w.runs.Keys :: NamedByDefault(w.runs[id])
    requires step.RunStep? ==> NamedByDefault(step.run)
    ensures forall id <- Apply(w, step).runs.Keys :: NamedByDefault(Apply(w, step).runs[id])
  {
    hide Open, Cutover, HandleRollback, Persist, LoadTarget, EnqueueItem, ReindexItem, CatalogRelease, Reembed;
    hide ScanAndRecover, SetVideoStatus, PurgeVideo, NamedByDefault;
    match step
    case OpenStep(runId, now) => OpenKeepsDefault(w, runId, now);
    case CutoverStep(runId, modelReady, id, now) => CutoverKeepsDefault(w, runId, modelReady, id, now);
    case _ =>
  }

  lemma OpenKeepsDefault(w: World, runId: nat, now: int)
    requires forall id <- w.runs.Keys :: NamedByDefault(w.runs[id])
    ensures forall id <- Open(w, runId, now).runs.Keys :: NamedByDefault(Open(w, runId, now).runs[id])
  {
    hide NamedByDefault, CandidateIndexFor, RecordCandidateIndex;
    match OpenOutcomeOf(w, runId)
    case OpenRefused =>
    case AlreadyOpen => RecordKeepsDefault(w, runId);
    case Opened => RecordKeepsDefault(w.(release := Open(w, runId, now).release), runId);
  }

  lemma RecordKeepsDefault(w: World, runId: nat)
    requires runId in w.runs && w.runs[runId].candidateModel.Some?
    requires forall id <- w.runs.Keys :: NamedByDefault(w.runs[id])
    ensures var r := RecordCandidateIndex(w, runId);
      forall id <- r.runs.Keys :: NamedByDefault(r.runs[id])
  {
    hide NamedByDefault, CandidateIndexFor;
    RecordedIsDefault(w.runs[runId]);
  }

  lemma RecordedIsDefault(run: PipelineRun)
    requires NamedByDefault(run) && run.candidateModel.Some?
    ensures NamedByDefault(run.(candidateIndex := Some(CandidateIndexFor(run))))
  {
  }

  lemma CutoverKeepsDefault(w: World, runId: nat, modelReady: bool, id: nat, now: int)
    requires forall id <- w.runs.Keys :: NamedByDefault(w.runs[id])
    ensures var r := Cutover(w, runId, modelReady, id, now);
      forall id <- r.runs.Keys :: NamedByDefault(r.runs[id])
  {
    hide OldOnlyLeft, RecordCutover;
  }

  ghost predicate DefaultRun(w: World, steps: seq<Step>)
    decreases |steps|
  {
    steps == [] || (
      && WasAsked(w, steps[0]) && (steps[0].RunStep? ==> NamedByDefault(steps[0].run))
      && DefaultRun(Apply(w, steps[0]), steps[1..]))
  }

  /** Runs whose index names are left to the program need no assumption about names. */
  lemma {:induction false} DefaultNamesAgree(w: World, steps: seq<Step>, models: map<string, string>)
    requires AllByDefault(w, models) && DefaultRun(w, steps)
    ensures AgreeingRun(w, steps, models)
    decreases |steps|
  {
    hide Apply, Agrees, NamedByDefault, StartsAsDefault;
    if steps != [] {
      DefaultAgrees(w, steps[0], models);
      RunsStayDefault(w, steps[0]);
      DefaultNamesAgree(Apply(w, steps[0]), steps[1..], models + Names(w, steps[0]));
    }
  }
}
