/** The managers that open candidates, cut over and roll back, tied to the steps of the protocol. */
module Transitions {
  import opened Wrappers
  import opened SnapshotRegistry
  import opened Serving
  import opened ServingInvariant
  import opened Stores
  import opened ReindexStore

  // ---- rollback ----

  class RollbackTransitionManager {
    const db: Database
    const releases: ModelReleaseStore
    const projects: ProjectRollbackStore

    ghost predicate Valid() { releases.db == db && projects.db == db }

    constructor (db: Database)
      ensures Valid() && this.db == db
    {
      this.db := db;
      this.releases := new ModelReleaseStore(db);
      this.projects := new ProjectRollbackStore(db);
    }

    /** One delivery of a request does what the rollback step does, with the same outcome. */
    method HandleRequest(q: RollbackRequest, modelReady: bool, now: int) returns (outcome: RollbackOutcome)
      requires Valid()
      modifies db
      ensures (db.Value(), outcome) == HandleRollback(old(db.Value()), q, modelReady, now)
    {
      hide AffectedProjects, IndexRestorable, CompleteRestore, ExcludeProjects;
      if q.version != "v1" { return UnsupportedVersion; }
      if db.release.None? { return MissingRelease; }
      var target := RollbackTarget(db.Value());
      if target.None? { return MissingSnapshot; }
      var release := db.release.value;
      if release.status == Stable && release.activeModel == target.value.0 { return AlreadyRestored; }
      if release.status == RollbackPreparing {
        outcome := ContinueRestore(modelReady, now);
        return;
      }
      if release.status != Stable { return InvalidState; }
      if !MatchesSwitch(release, q) { return StaleRequest; }
      var affected := projects.ExcludeProjectsForProblemModel(release.activeModel);
      releases.MarkRollbackPreparing();
      assert RollbackTarget(db.Value()) == target;
      outcome := ContinueRestore(modelReady, now);
    }

    method ContinueRestore(modelReady: bool, now: int) returns (outcome: RollbackOutcome)
      requires Valid() && db.release.Some? && RollbackTarget(db.Value()).Some?
      modifies db
      ensures (db.Value(), outcome) == Serving.ContinueRestore(old(db.Value()), modelReady, now)
    {
      hide RollbackTarget, CompleteRestore;
      var target := RollbackTarget(db.Value()).value;
      if !modelReady { return RollbackNotReady; }
      if !IndexRestorable(db.Value(), target.1) { return BlockedIndexRestore; }
      var completed := releases.CompleteRollbackRestore(now);
      outcome := Restored;
    }
  }

  // ---- opening a candidate and cutting over ----

  function EnqueueSteps(keys: seq<ItemKey>): seq<Step> {
    seq(|keys|, i requires 0 <= i < |keys| => EnqueueStep(keys[i].video, keys[i].source))
  }

  /** Queueing items for the active release is a run of enqueue steps. */
  lemma {:induction false} EnqueueRun(w: World, keys: seq<ItemKey>)
    requires w.release.Some?
    requires forall k <- keys :: IsOldOnly(w, k, w.release.value.activeIndex, ExcludedIndexes(w.release.value))
    ensures Run(w, EnqueueSteps(keys)) == w.(items := EnsureAll(w.items, keys, w.release.value.activeModel))
    ensures AllowedRun(w, EnqueueSteps(keys))
  {
    if keys != [] {
      var n, r := |keys| - 1, w.release.value;
      var init, last := EnqueueSteps(keys[..n]), EnqueueStep(keys[n].video, keys[n].source);
      EnqueueRun(w, keys[..n]);
      var x := Run(w, init);
      assert EnqueueSteps(keys) == init + [last];
      RunConcat(w, init, [last]);
      assert IsOldOnly(w, keys[n], r.activeIndex, ExcludedIndexes(r));
      SameQueries(w, x, keys[n].source, r.activeIndex, ExcludedIndexes(r));
      RunOne(x, last);
    }
  }

  lemma EnqueuedRun(w: World, items: map<ItemKey, Item>, keys: seq<ItemKey>, count: nat)
    requires w.release.Some?
    requires var r := w.release.value; Enqueued(w, items, keys, count, r.activeIndex, r.activeModel, ExcludedIndexes(r))
    ensures Run(w, EnqueueSteps(keys)) == w.(items := items) && AllowedRun(w, EnqueueSteps(keys))
  {
    hide EnsureAll, IsOldOnly, IsOpen, Run, AllowedRun;
    EnqueueRun(w, keys);
  }

  class ServingTransitionManager {
    const db: Database
    const releases: ModelReleaseStore
    const gate: LegacyReindexStore

    ghost predicate Valid() { releases.db == db && gate.db == db }

    constructor (db: Database)
      ensures Valid() && this.db == db
    {
      this.db := db;
      this.releases := new ModelReleaseStore(db);
      this.gate := new LegacyReindexStore(db);
    }

    method RecordCandidateIndexIfMissing(runId: nat)
      requires runId in db.runs && db.runs[runId].candidateModel.Some?
      modifies db`runs
      ensures db.Value() == RecordCandidateIndex(old(db.Value()), runId)
    {
      var run := db.runs[runId];
      if run.candidateIndex.Some? { return; }
      db.runs := db.runs[runId := run.(candidateIndex := Some(CandidateIndexFor(run)))];
    }

    method OpenCandidateRelease(runId: nat, now: int) returns (outcome: OpenOutcome)
      requires Valid()
      modifies db
      ensures outcome == OpenOutcomeOf(old(db.Value()), runId)
      ensures db.Value() == Open(old(db.Value()), runId, now)
    {
      if runId !in db.runs || db.runs[runId].status != ReadyForRelease || db.runs[runId].candidateModel.None? {
        return OpenRefused;
      }
      if db.release.None? { return OpenRefused; }
      var run, release := db.runs[runId], db.release.value;
      var index := CandidateIndexFor(run);
      if release.status == CandidateReindexing && release.candidateModel == run.candidateModel
         && release.candidateIndex == Some(index) {
        RecordCandidateIndexIfMissing(runId);
        return AlreadyOpen;
      }
      if release.status != Stable { return OpenRefused; }
      var ok := releases.TryOpenCandidateRelease(run.candidateModel.value, index, now);
      RecordCandidateIndexIfMissing(runId);
      outcome := Opened;
    }

    /** Does what the cutover step does; a closed gate also queues reindex items. */
    method CutoverCandidateRelease(runId: nat, modelReady: bool, snapshotId: nat, now: int, limit: nat)
      returns (outcome: CutoverOutcome, ghost keys: seq<ItemKey>)
      requires Valid()
      modifies db
      ensures outcome == CutoverOutcomeOf(old(db.Value()), runId, modelReady)
      ensures outcome != BlockedLegacyVectorsRemain ==>
        keys == [] && db.Value() == Cutover(old(db.Value()), runId, modelReady, snapshotId, now)
      ensures outcome == BlockedLegacyVectorsRemain ==>
        && db.Value() == Run(old(db.Value()), EnqueueSteps(keys))
        && AllowedRun(old(db.Value()), EnqueueSteps(keys))
    {
      hide OldOnlyLeft, Enqueued, IsOldOnly, RecordCutover, Run, AllowedRun, IsOpen, EnqueueSteps;
      keys := [];
      if !CutoverAllowed(db.Value(), runId) { return CutoverRefused, keys; }
      if !modelReady { return BlockedNotReady, keys; }
      var run, release := db.runs[runId], db.release.value;
      var cutoverTime := if run.cutoverTime.Some? then run.cutoverTime.value else now;
      var blocked;
      ghost var w, count := db.Value(), 0;
      blocked, keys, count :=
        gate.EnsureCutoverReady(release.activeIndex, release.activeModel, release.candidateIndex, limit);
      if blocked {
        EnqueuedRun(w, db.items, keys, count);
        return BlockedLegacyVectorsRemain, keys;
      }
      if run.cutoverTime.None? {
        db.runs := db.runs[runId := db.runs[runId].(cutoverTime := Some(cutoverTime))];
      }
      releases.MarkCandidateReady(cutoverTime);
      var completed := releases.CompleteCandidateCutover(snapshotId, cutoverTime);
      db.runs := db.runs[runId := db.runs[runId].(status := DeployCompleted)];
      outcome := CutOver;
    }
  }
}
