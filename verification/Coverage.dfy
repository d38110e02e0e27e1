/**
 What the gate before cutover is for: no stored chunk drops out of the indexes that serve, and a
 rollback knows which projects depend on the index it leaves behind.
 */
module Coverage {
  import opened Wrappers
  import opened SnapshotRegistry
  import opened Serving
  import opened ServingInvariant

  /** No step takes a vector from a chunk that stays: vectors leave only with their chunk, when its video
      is ingested again or purged. */
  lemma VectorsLeaveWithChunks(w: World, step: Step, p: (string, nat))
    requires p in w.entries && Allowed(w, step)
    ensures p in Apply(w, step).entries || (p.1 in w.chunks && p.1 !in Apply(w, step).chunks)
    ensures p !in Apply(w, step).entries ==> step.PersistStep? || step.PurgeStep?
  {
    hide Open, Cutover, HandleRollback, LoadTarget, EnqueueItem, CatalogRelease, ScanAndRecover, SetVideoStatus;
    hide Persist, PurgeVideo;
    hide AddEntries, OldOnlyLeft;
    if step.PersistStep? { PersistLeaves(w, step.job, step.stt, step.inputs, step.vectors, p); }
    if step.PurgeStep? { PurgeLeaves(w, step.video, p); }
  }

  lemma PersistLeaves(
    w: World, job: nat, stt: string, inputs: map<nat, Option<string>>, vectors: map<nat, Vector>, p: (string, nat))
    requires p in w.entries && forall c <- inputs.Keys :: c !in w.chunks
    ensures var r := Persist(w, job, stt, inputs, vectors);
      p in r.entries || (p.1 in w.chunks && p.1 !in r.chunks)
  {
    hide AddEntries, WithoutChunks, ReplaceChunks;
  }

  lemma PurgeLeaves(w: World, v: nat, p: (string, nat))
    requires p in w.entries
    ensures p in PurgeVideo(w, v).entries || (p.1 in w.chunks && p.1 !in PurgeVideo(w, v).chunks)
  {
  }

  // ---- chunks stay in a serving index ----

  ghost predicate Covered(w: World, c: nat)
    requires w.release.Some?
  {
    var r := w.release.value;
    || (r.activeIndex, c) in w.entries
    || (r.previousIndex.Some? && (r.previousIndex.value, c) in w.entries)
    || (r.candidateIndex.Some? && (r.candidateIndex.value, c) in w.entries)
  }

  /** Every ready chunk with a vector in a live index has one in the active, previous or candidate index. */
  ghost predicate NothingLost(w: World) {
    w.release.Some? && forall p <- w.entries.Keys :: Alive(w, p.0) && IsReady(w, p.1) ==> Covered(w, p.1)
  }

  /** The chunks of a video that a new ingest of it leaves in place. */
  function Leftovers(w: World, v: nat, stt: string, model: string): set<nat> {
    ChunksOf(w, v) - SameVersionChunks(w, v, stt, model)
  }

  ghost predicate LeftoversCovered(w: World, v: nat, stt: string, model: string)
    requires w.release.Some?
  {
    forall p <- w.entries.Keys :: p.1 in Leftovers(w, v, stt, model) && Alive(w, p.0) ==> Covered(w, p.1)
  }

  /** The ingest gets as far as storing its chunks. */
  predicate Stores(w: World, job: nat, inputs: map<nat, Option<string>>) {
    && inputs.Keys != {} && job in w.jobs
    && w.jobs[job].video in w.videos && w.videos[w.jobs[job].video].status != Deleting
  }

  predicate InUse(w: World, index: string) {
    w.release.Some? && (index == w.release.value.activeIndex || w.release.value.previousIndex == Some(index))
  }

  /** What a step has to meet to lose no chunk. An ingest must not store into a live index that is out of use,
      and must not make a video ready again over older chunks that no serving index holds. A re-embedding must
      not write to such an index for a ready chunk that no serving index holds. */
  ghost predicate Harmless(w: World, step: Step) {
    w.release.Some? &&
      match step
      case PersistStep(job, stt, inputs, vectors) =>
        Stores(w, job, inputs) ==>
          var j := w.jobs[job];
          && (Alive(w, j.index) ==> InUse(w, j.index))
          && (w.videos[j.video].status == Ready || LeftoversCovered(w, j.video, stt, j.model))
      case ReembedStep(q, vectors) =>
        q.video in w.videos && Alive(w, q.index) && !InUse(w, q.index) ==>
          forall c <- vectors.Keys :: IsReady(w, c) ==> Covered(w, c)
      case _ => true
  }

  /** An open gate means that every ready chunk of any other live index is in the active one. */
  lemma GateOpen(w: World, p: (string, nat))
    requires Inv(w) && p in w.entries && Alive(w, p.0) && IsReady(w, p.1)
    requires var r := w.release.value;
      !OldOnlyLeft(w, r.activeIndex, ExcludedIndexes(r)) && p.0 !in ExcludedIndexes(r)
    ensures (w.release.value.activeIndex, p.1) in w.entries
  {
    var r := w.release.value;
    assert p.0 in SourceIndexes(w, ExcludedIndexes(r));
    assert w.entries[p].video !in OldOnlyVideos(w, p.0, r.activeIndex);
  }

  lemma CutoverLosesNothing(w: World, runId: nat, modelReady: bool, id: nat, now: int)
    requires Inv(w) && NothingLost(w)
    ensures NothingLost(Cutover(w, runId, modelReady, id, now))
  {
    hide ReleaseIsTop, PreviousIsBelow, OldOnlyLeft, SourceIndexes, DataLinked;
    var r := Cutover(w, runId, modelReady, id, now);
    if CutoverOutcomeOf(w, runId, modelReady) == CutOver {
      forall p <- r.entries.Keys | Alive(r, p.0) && IsReady(r, p.1) ensures Covered(r, p.1) {
        if p.0 !in ExcludedIndexes(w.release.value) { GateOpen(w, p); }
      }
    }
  }

  /** Vectors of chunks that stay, one by one. */
  lemma OldVectors(w: World, job: nat, stt: string, inputs: map<nat, Option<string>>, vectors: map<nat, Vector>, c: nat)
    requires Inv(w) && Stores(w, job, inputs) && inputs.Keys == vectors.Keys && c !in inputs
    ensures var x, j := Persist(w, job, stt, inputs, vectors), w.jobs[job];
      var kept := c !in SameVersionChunks(w, j.video, stt, j.model);
      && (forall i :: (i, c) in x.entries <==> (i, c) in w.entries && kept)
      && (c in w.chunks && kept ==>
        Covered(x, c) == Covered(w, c) && IsReady(x, c) == (IsReady(w, c) || w.chunks[c].video == j.video))
  {
    hide ReleaseIsTop, PreviousIsBelow, CandidateFields, CandidateApart, DataLinked;
    hide AddEntries, WithoutChunks, ReplaceChunks, SameVersionChunks;
  }

  /** Vectors of the new chunks are all in the index of the job. */
  lemma NewVectors(w: World, job: nat, stt: string, inputs: map<nat, Option<string>>, vectors: map<nat, Vector>, c: nat)
    requires Inv(w) && Stores(w, job, inputs) && inputs.Keys == vectors.Keys && c in inputs && c !in w.chunks
    ensures var x, j := Persist(w, job, stt, inputs, vectors), w.jobs[job];
      && IsReady(x, c) && forall i :: (i, c) in x.entries <==> i == j.index
  {
    hide ReleaseIsTop, PreviousIsBelow, CandidateFields, CandidateApart;
    hide AddEntries, WithoutChunks, ReplaceChunks, SameVersionChunks;
    assert forall i :: (i, c) !in w.entries;
  }

  lemma HarmlessLosesNothing(
    w: World, job: nat, stt: string, inputs: map<nat, Option<string>>, vectors: map<nat, Vector>)
    requires Inv(w) && NothingLost(w) && Allowed(w, PersistStep(job, stt, inputs, vectors))
    requires Stores(w, job, inputs) && Harmless(w, PersistStep(job, stt, inputs, vectors))
    ensures NothingLost(Persist(w, job, stt, inputs, vectors))
  {
    hide ReleaseIsTop, PreviousIsBelow, CandidateFields, CandidateApart, Persist, SameVersionChunks;
    var j, x := w.jobs[job], Persist(w, job, stt, inputs, vectors);
    forall p <- x.entries.Keys | Alive(x, p.0) && IsReady(x, p.1) ensures Covered(x, p.1) {
      if p.1 in inputs {
        NewVectors(w, job, stt, inputs, vectors, p.1);
      } else {
        OldVectors(w, job, stt, inputs, vectors, p.1);
        assert p == (p.0, p.1);
      }
    }
  }

  lemma LosesNothingIsHarmless(
    w: World, job: nat, stt: string, inputs: map<nat, Option<string>>, vectors: map<nat, Vector>)
    requires Inv(w) && NothingLost(w) && Allowed(w, PersistStep(job, stt, inputs, vectors))
    requires Stores(w, job, inputs) && NothingLost(Persist(w, job, stt, inputs, vectors))
    ensures Harmless(w, PersistStep(job, stt, inputs, vectors))
  {
    hide ReleaseIsTop, PreviousIsBelow, CandidateFields, Persist, SameVersionChunks;
    var j, x := w.jobs[job], Persist(w, job, stt, inputs, vectors);
    if c :| c in inputs.Keys {
      NewVectors(w, job, stt, inputs, vectors, c);
      assert (j.index, c) in x.entries;
    }
    forall p <- w.entries.Keys | p.1 in Leftovers(w, j.video, stt, j.model) && Alive(w, p.0) ensures Covered(w, p.1) {
      OldVectors(w, job, stt, inputs, vectors, p.1);
      assert (p.0, p.1) in x.entries;
    }
  }

  /** What an ingest has to meet, exactly. */
  lemma PersistLosesNothingIff(
    w: World, job: nat, stt: string, inputs: map<nat, Option<string>>, vectors: map<nat, Vector>)
    requires Inv(w) && NothingLost(w) && Allowed(w, PersistStep(job, stt, inputs, vectors))
    ensures NothingLost(Persist(w, job, stt, inputs, vectors)) <==> Harmless(w, PersistStep(job, stt, inputs, vectors))
  {
    hide ReleaseIsTop, PreviousIsBelow, CandidateFields, CandidateApart, DataLinked, LeftoversCovered;
    hide SameVersionChunks;
    hide AddEntries, WithoutChunks, ReplaceChunks;
    if Stores(w, job, inputs) {
      if NothingLost(Persist(w, job, stt, inputs, vectors)) { LosesNothingIsHarmless(w, job, stt, inputs, vectors); }
      if Harmless(w, PersistStep(job, stt, inputs, vectors)) { HarmlessLosesNothing(w, job, stt, inputs, vectors); }
    }
  }

  /** Removing vectors and taking videos out of service, or adding a video without chunks. */
  lemma RemovalLosesNothing(w: World, step: Step)
    requires Inv(w) && NothingLost(w) && Allowed(w, step)
    requires step.PurgeStep? || step.FailStep? || step.DeleteStep? || step.UploadStep?
    ensures NothingLost(Apply(w, step))
  {
    hide ReleaseIsTop, PreviousIsBelow, CandidateFields, CandidateApart;
  }

  lemma ReindexLosesNothing(w: World, key: ItemKey, vectors: map<nat, Vector>, status: ItemStatus)
    requires Inv(w) && NothingLost(w) && Allowed(w, ReindexStep(key, vectors, status))
    ensures NothingLost(ReindexItem(w, key, vectors, status))
  {
    hide ReleaseIsTop, PreviousIsBelow, CandidateFields, CandidateApart, AddEntries;
    var r := ReindexItem(w, key, vectors, status);
    forall p <- r.entries.Keys | Alive(r, p.0) && IsReady(r, p.1) ensures Covered(r, p.1) {
      if p !in w.entries { assert (key.source, p.1) in w.entries; }
    }
  }

  /** What a re-embedding has to meet, exactly. */
  lemma ReembedLosesNothingIff(w: World, q: Reembedding, vectors: map<nat, Vector>)
    requires Inv(w) && NothingLost(w) && Allowed(w, ReembedStep(q, vectors))
    ensures NothingLost(Reembed(w, q, vectors)) <==> Harmless(w, ReembedStep(q, vectors))
  {
    hide ReleaseIsTop, PreviousIsBelow, CandidateFields, AddEntries, DataLinked;
    var x := Reembed(w, q, vectors);
    if NothingLost(x) && q.video in w.videos && Alive(w, q.index) && !InUse(w, q.index) {
      forall c <- vectors.Keys | IsReady(w, c) ensures Covered(w, c) {
        assert (q.index, c) in x.entries && Covered(x, c);
      }
    }
  }

  lemma CatalogLosesNothing(w: World, dimension: nat)
    requires Inv(w) && NothingLost(w)
    ensures NothingLost(CatalogRelease(w, dimension))
  {
    hide ReleaseIsTop, PreviousIsBelow, CandidateFields, CandidateApart;
  }

  lemma OpenLosesNothing(w: World, runId: nat, now: int)
    requires Inv(w) && NothingLost(w)
    ensures NothingLost(Open(w, runId, now))
  {
    hide ReleaseIsTop, PreviousIsBelow, CandidateApart, CandidateIndexFor;
  }

  /** Every step but a rollback keeps every ready chunk of a live index in a serving index exactly when it is
      harmless; only ingests and re-embeddings can fail to be. */
  lemma StepLosesNothingIff(w: World, step: Step)
    requires Inv(w) && NothingLost(w) && Allowed(w, step) && !step.RollbackStep?
    ensures NothingLost(Apply(w, step)) <==> Harmless(w, step)
  {
    hide ReleaseIsTop, PreviousIsBelow, CandidateFields, CandidateApart, DataLinked, LeftoversCovered, InUse;
    hide Open, Cutover, Persist, EnqueueItem, ReindexItem, CatalogRelease, Reembed, ScanAndRecover, PurgeVideo;
    hide SetVideoStatus;
    match step
    case OpenStep(runId, now) => OpenLosesNothing(w, runId, now);
    case CutoverStep(runId, modelReady, id, now) => CutoverLosesNothing(w, runId, modelReady, id, now);
    case PersistStep(job, stt, inputs, vectors) => PersistLosesNothingIff(w, job, stt, inputs, vectors);
    case ReindexStep(key, vectors, status) => ReindexLosesNothing(w, key, vectors, status);
    case CatalogStep(dimension) => CatalogLosesNothing(w, dimension);
    case ReembedStep(q, vectors) => ReembedLosesNothingIff(w, q, vectors);
    case PurgeStep(v) => RemovalLosesNothing(w, step);
    case FailStep(v) => RemovalLosesNothing(w, step);
    case DeleteStep(v) => RemovalLosesNothing(w, step);
    case UploadStep(v, project) => RemovalLosesNothing(w, step);
    case RecoveryStep =>
    case LoadTargetStep(job, v) =>
    case EnqueueStep(v, source) =>
    case RunStep(runId, run) =>
  }

  ghost predicate HarmlessRun(w: World, steps: seq<Step>)
    decreases |steps|
  {
    steps == [] || (Harmless(w, steps[0]) && HarmlessRun(Apply(w, steps[0]), steps[1..]))
  }

  ghost predicate NeverLost(w: World, steps: seq<Step>)
    decreases |steps|
  {
    NothingLost(w) && (steps != [] ==> NeverLost(Apply(w, steps[0]), steps[1..]))
  }

  predicate NoRollback(steps: seq<Step>) {
    forall s <- steps :: !s.RollbackStep?
  }

  /** Over any run of gated cutovers, ingests, reindexing and everything else short of a rollback, every ready
      chunk that a live index holds stays in an index that serves, all along, exactly when the run's ingests and
      re-embeddings are harmless. */
  lemma {:induction false} CutoversLoseNothing(w: World, steps: seq<Step>)
    requires Inv(w) && NothingLost(w) && AllowedRun(w, steps) && NoRollback(steps)
    ensures NeverLost(w, steps) <==> HarmlessRun(w, steps)
    decreases |steps|
  {
    hide Inv, NothingLost, Harmless, Apply, Allowed;
    if steps != [] {
      assert steps[0] in steps && forall s <- steps[1..] :: s in steps;
      StepKeepsInv(w, steps[0]);
      StepLosesNothingIff(w, steps[0]);
      if NothingLost(Apply(w, steps[0])) { CutoversLoseNothing(Apply(w, steps[0]), steps[1..]); }
    }
  }

  // ---- when an ingest's target is still in use ----

  /** The ingest was aimed at the pair that is active, or at the previous index. */
  predicate Timely(w: World, job: nat) {
    && job in w.jobs && w.release.Some?
    && (AtActive(w, job) || w.release.value.previousIndex == Some(w.jobs[job].index))
  }

  predicate AtActive(w: World, job: nat) {
    && job in w.jobs && w.release.Some?
    && w.jobs[job].index == w.release.value.activeIndex && w.jobs[job].model == w.release.value.activeModel
  }

  /** A timely ingest that re-ingests a ready video or leaves no older chunk of the video loses nothing. */
  lemma TimelyIsHarmless(w: World, job: nat, stt: string, inputs: map<nat, Option<string>>, vectors: map<nat, Vector>)
    requires Timely(w, job)
    requires Stores(w, job, inputs) ==>
      w.videos[w.jobs[job].video].status == Ready || Leftovers(w, w.jobs[job].video, stt, w.jobs[job].model) == {}
    ensures Harmless(w, PersistStep(job, stt, inputs, vectors))
  {
  }

  /** The cutovers that go through. */
  ghost function Switches(w: World, steps: seq<Step>): nat
    decreases |steps|
  {
    if steps == [] then 0
    else (if CutsOver(w, steps[0]) then 1 else 0) + Switches(Apply(w, steps[0]), steps[1..])
  }

  lemma SwitchKeepsTimely(w: World, runId: nat, modelReady: bool, id: nat, now: int, job: nat)
    requires AtActive(w, job) && CutoverOutcomeOf(w, runId, modelReady) == CutOver
    ensures Timely(Cutover(w, runId, modelReady, id, now), job)
  {
    hide OldOnlyLeft, RecordCutover;
  }

  lemma OtherStepKeepsTimely(w: World, step: Step, job: nat)
    requires Timely(w, job) && job in Apply(w, step).jobs && !step.RollbackStep? && !CutsOver(w, step)
    ensures Timely(Apply(w, step), job) && (AtActive(w, job) ==> AtActive(Apply(w, step), job))
  {
    hide Open, Cutover, Persist, LoadTarget, CutoverOutcomeOf;
    hide EnqueueItem, ReindexItem, CatalogRelease, Reembed, ScanAndRecover, SetVideoStatus, PurgeVideo;
    match step
    case OpenStep(runId, now) => OpenKeepsPairs(w, runId, now);
    case CutoverStep(runId, modelReady, id, now) => NoCutover(w, runId, modelReady, id, now);
    case PersistStep(j, stt, inputs, vectors) => PersistKeepsJobs(w, j, stt, inputs, vectors, job);
    case LoadTargetStep(j, v) => LoadKeepsTimely(w, j, v, job);
    case _ =>
  }

  lemma NoCutover(w: World, runId: nat, modelReady: bool, id: nat, now: int)
    requires CutoverOutcomeOf(w, runId, modelReady) != CutOver
    ensures Cutover(w, runId, modelReady, id, now) == w
  {
    hide CutoverOutcomeOf;
  }

  lemma PersistKeepsJobs(
    w: World, j: nat, stt: string, inputs: map<nat, Option<string>>, vectors: map<nat, Vector>, job: nat)
    requires job in w.jobs && job in Persist(w, j, stt, inputs, vectors).jobs
    ensures Persist(w, j, stt, inputs, vectors).jobs[job] == w.jobs[job]
  {
    hide AddEntries, WithoutChunks, ReplaceChunks, SameVersionChunks;
  }

  lemma LoadKeepsTimely(w: World, j: nat, v: nat, job: nat)
    requires Timely(w, job)
    ensures Timely(LoadTarget(w, j, v), job) && (AtActive(w, job) ==> AtActive(LoadTarget(w, j, v), job))
  {
  }

  lemma OpenKeepsPairs(w: World, runId: nat, now: int)
    requires w.release.Some?
    ensures var r := Open(w, runId, now);
      && r.release.Some? && r.release.value.activeIndex == w.release.value.activeIndex
      && r.release.value.activeModel == w.release.value.activeModel
      && r.release.value.previousIndex == w.release.value.previousIndex
  {
    hide CandidateIndexFor;
  }

  ghost predicate JobStays(w: World, steps: seq<Step>, job: nat)
    decreases |steps|
  {
    job in w.jobs && (steps != [] ==> JobStays(Apply(w, steps[0]), steps[1..], job))
  }

  /** An ingest stays timely through any run short of a rollback in which serving switches once at most. */
  lemma {:induction false} StaysTimely(w: World, steps: seq<Step>, job: nat)
    requires NoRollback(steps) && JobStays(w, steps, job) && Timely(w, job)
    requires Switches(w, steps) <= if AtActive(w, job) then 1 else 0
    ensures Timely(Run(w, steps), job)
    decreases |steps|
  {
    hide Apply, Timely, AtActive, CutoverOutcomeOf;
    if steps != [] {
      var step := steps[0];
      assert step in steps && forall s <- steps[1..] :: s in steps;
      if CutsOver(w, step) {
        SwitchedStep(w, step, job);
      } else {
        assert job in Apply(w, step).jobs;
        OtherStepKeepsTimely(w, step, job);
      }
      StaysTimely(Apply(w, step), steps[1..], job);
    }
  }

  lemma SwitchedStep(w: World, step: Step, job: nat)
    requires AtActive(w, job) && CutsOver(w, step)
    ensures Timely(Apply(w, step), job)
  {
    hide Cutover, CutoverOutcomeOf, Timely, AtActive;
    SwitchKeepsTimely(w, step.runId, step.modelReady, step.snapshotId, step.now, job);
  }

  /** So an ingest may store as long as serving switched once at most since it read its target. */
  lemma IngestMayOverlapOneSwitch(w: World, job: nat, v: nat, steps: seq<Step>)
    requires w.release.Some? && w.release.value.status != RollbackPreparing && NoRollback(steps)
    requires JobStays(LoadTarget(w, job, v), steps, job) && Switches(LoadTarget(w, job, v), steps) <= 1
    ensures Timely(Run(LoadTarget(w, job, v), steps), job)
  {
    hide Run, Switches;
    StaysTimely(LoadTarget(w, job, v), steps, job);
  }
}
