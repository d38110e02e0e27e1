/** Which projects a rollback has to exclude, and that it does. */
module Exclusion {
  import opened Wrappers
  import opened SnapshotRegistry
  import opened Serving
  import opened ServingInvariant
  import opened Coverage

  /** Live indexes and the active one, except an open candidate. */
  ghost predicate Serves(w: World, index: string)
    requires w.release.Some?
  {
    (Alive(w, index) || index == w.release.value.activeIndex) && w.release.value.candidateIndex != Some(index)
  }

  /** After a gated cutover, whatever happened before it, the index that a rollback would restore holds every ready
      chunk in service. */
  lemma CutoverFillsTarget(w: World, runId: nat, modelReady: bool, id: nat, now: int)
    requires Inv(w) && CutoverOutcomeOf(w, runId, modelReady) == CutOver
    requires CapturedBefore(w.snapshots, CutoverTime(w, runId, now))
    ensures var x := Cutover(w, runId, modelReady, id, now);
      && x.release.Some? && RollbackTarget(x) == Some((w.release.value.activeModel, w.release.value.activeIndex))
      && forall p <- x.entries.Keys ::
           Serves(x, p.0) && IsReady(x, p.1) ==> (RollbackTarget(x).value.1, p.1) in x.entries
  {
    hide PreviousIsBelow, OldOnlyLeft, SourceIndexes, DataLinked, RecordCutover, IsStack, Stack, Top;
    var r, t := w.release.value, CutoverTime(w, runId, now);
    var x := Cutover(w, runId, modelReady, id, now);
    CutoverOnStack(w.snapshots, id, r.candidateModel.value, r.candidateIndex.value, t);
    TargetBelowTop(x);
    forall p <- x.entries.Keys | Serves(x, p.0) && IsReady(x, p.1) ensures (r.activeIndex, p.1) in x.entries {
      if p.0 !in ExcludedIndexes(r) { GateOpen(w, p); }
    }
  }

  /** What the release row and the stack agree on about the rollback target. */
  lemma TargetIsPrevious(w: World)
    requires Inv(w) && RollbackTarget(w).Some? && w.release.value.previousIndex.Some?
    ensures w.release.value.previousIndex.value == RollbackTarget(w).value.1
  {
    hide IsStack, Stack, RollbackTarget;
    TargetBelowTop(w);
  }

  lemma OtherTargets(w: World, step: Step)
    requires !step.RollbackStep? && !step.CutoverStep?
    ensures RollbackTarget(Apply(w, step)) == RollbackTarget(w)
  {
    hide Apply;
    OtherSnapshots(w, step);
  }

  lemma InvHasRelease(w: World)
    requires Inv(w)
    ensures w.release.Some?
  {
  }

  /** After the last switch, a completed rollback leaves this: what a project that still serves has
      ready, in any live index or in the index left behind, is in the index restored. */
  ghost predicate ExclusionComplete(w: World, left: string) {
    w.release.Some? &&
      forall p <- w.entries.Keys ::
        (Alive(w, p.0) || p.0 == left) && IsReady(w, p.1) && InServableProject(w, p.1)
        ==> (w.release.value.activeIndex, p.1) in w.entries
  }

  /** The chunk belongs to a project that serves. */
  predicate InServableProject(w: World, c: nat) {
    c in w.chunks && w.chunks[c].video in w.videos && w.videos[w.chunks[c].video].project.Some?
    && w.videos[w.chunks[c].video].project.value in w.projects
    && w.projects[w.videos[w.chunks[c].video].project.value] == Servable
  }

  /** The project serves, and no chunk of it was stored under the active model: a rollback would not exclude it. */
  ghost predicate StaysServable(w: World, p: nat)
    requires w.release.Some?
  {
    p in w.projects && w.projects[p] == Servable && forall c :: !StoredUnder(w, c, p, w.release.value.activeModel)
  }

  ghost predicate Exposed(w: World, c: nat)
    requires w.release.Some?
  {
    && c in w.chunks && w.chunks[c].video in w.videos && w.videos[w.chunks[c].video].project.Some?
    && StaysServable(w, w.videos[w.chunks[c].video].project.value)
  }

  /** What can be read off the tables before a rollback: of the projects that it would leave serving, every ready
      chunk in service is in the rollback target's index. */
  ghost predicate ExcludableTo(w: World, index: string)
    requires w.release.Some?
  {
    forall p <- w.entries.Keys :: Serves(w, p.0) && IsReady(w, p.1) && Exposed(w, p.1) ==> (index, p.1) in w.entries
  }

  ghost predicate Excludable(w: World) {
    w.release.Some? && (RollbackTarget(w).Some? ==> ExcludableTo(w, RollbackTarget(w).value.1))
  }

  lemma ServableAfterExclusion(w: World, c: nat)
    requires w.release.Some?
    ensures InServableProject(ExcludeProjects(w, w.release.value.activeModel), c) <==> Exposed(w, c)
  {
    hide ExcludeProjects, StoredUnder;
    if c in w.chunks && w.chunks[c].video in w.videos && w.videos[w.chunks[c].video].project.Some? {
      var p := w.videos[w.chunks[c].video].project.value;
      if p in w.projects { ExcludesStoredUnder(w, w.release.value.activeModel, p); }
    }
    SameProjects(w);
  }

  lemma SameProjects(w: World)
    requires w.release.Some?
    ensures ExcludeProjects(w, w.release.value.activeModel).projects.Keys == w.projects.Keys
  {
  }

  /** Exactly when a rollback that starts and restores at once excludes every project it has to. */
  lemma RollbackExcludesIff(w: World, q: RollbackRequest, modelReady: bool, now: int)
    requires Inv(w) && AdmissionOf(w, q) == Start && HandleRollback(w, q, modelReady, now).1 == Restored
    ensures ExclusionComplete(HandleRollback(w, q, modelReady, now).0, w.release.value.activeIndex) <==> Excludable(w)
  {
    hide ReleaseIsTop, PreviousIsBelow, CandidateApart, DataLinked, RecordRollback, IndexRestorable, ExcludeProjects;
    hide Exposed, StoredUnder, RollbackTarget, InServableProject;
    var excluded := ExcludeProjects(w, w.release.value.activeModel);
    var x := HandleRollback(w, q, modelReady, now).0;
    SameTarget(w, MarkPreparing(excluded));
    forall c ensures InServableProject(x, c) <==> Exposed(w, c) {
      ServableAfterExclusion(w, c);
      SameServable(excluded, x, c);
    }
  }

  /** What can be read off the tables while a rollback is held up: of the projects that still serve, every ready chunk
      in service is in the rollback target's index. */
  ghost predicate ServablesCopied(w: World) {
    w.release.Some? && (RollbackTarget(w).Some? ==>
      forall p <- w.entries.Keys :: Serves(w, p.0) && IsReady(w, p.1) && InServableProject(w, p.1) ==>
        (RollbackTarget(w).value.1, p.1) in w.entries)
  }

  /** The same for a rollback that was held up, whatever happened since it started. */
  lemma ContinuedRollbackExcludesIff(w: World, q: RollbackRequest, modelReady: bool, now: int)
    requires Inv(w) && AdmissionOf(w, q) == Continue && HandleRollback(w, q, modelReady, now).1 == Restored
    ensures ExclusionComplete(HandleRollback(w, q, modelReady, now).0, w.release.value.activeIndex)
      <==> ServablesCopied(w)
  {
    hide ReleaseIsTop, PreviousIsBelow, CandidateApart, DataLinked, RecordRollback, IndexRestorable, InServableProject;
    hide RollbackTarget;
    var x := HandleRollback(w, q, modelReady, now).0;
    forall c ensures InServableProject(x, c) <==> InServableProject(w, c) { SameServable(w, x, c); }
  }

  lemma SameServable(w: World, r: World, c: nat)
    requires r == w.(release := r.release, snapshots := r.snapshots)
    ensures InServableProject(r, c) == InServableProject(w, c)
  {
  }

  /** A rollback excludes no other project: a request that starts one excludes, beside those that were, exactly
      the projects with a chunk stored under the model it leaves, and any other request excludes none. */
  lemma RollbackExcludesExactly(w: World, q: RollbackRequest, modelReady: bool, now: int, p: nat)
    requires Inv(w) && p in w.projects
    ensures var r := HandleRollback(w, q, modelReady, now).0;
      p in r.projects &&
      (r.projects[p] == RollbackExcluded <==>
        || w.projects[p] == RollbackExcluded
        || (AdmissionOf(w, q).Start? && exists c :: StoredUnder(w, c, p, w.release.value.activeModel)))
  {
    hide ReleaseIsTop, PreviousIsBelow, CandidateFields, CandidateApart, DataLinked;
    hide HandleRollback, AdmissionOf, ContinueRestore, RollbackTarget, ExcludeProjects, MarkPreparing, StoredUnder;
    BegunServes(w, q, modelReady, now);
    ExcludesStoredUnder(w, w.release.value.activeModel, p);
  }
}
