/** What whole runs do to serving: an open candidate stays alone, and rollbacks undo cutovers one for one. */
module ServingRuns {
  import opened Wrappers
  import opened SnapshotRegistry
  import opened Serving
  import opened ServingInvariant

  // ---- an open candidate ----

  ghost predicate NeverCutsOver(w: World, steps: seq<Step>)
    decreases |steps|
  {
    steps == [] || (!CutsOver(w, steps[0]) && NeverCutsOver(Apply(w, steps[0]), steps[1..]))
  }

  lemma CandidateStaysInStep(w: World, step: Step)
    requires w.release.Some? && w.release.value.status == CandidateReindexing && !CutsOver(w, step)
    ensures Apply(w, step).release == w.release
  {
    hide Open, Cutover, HandleRollback, CutoverOutcomeOf;
    hide Persist, LoadTarget, EnqueueItem, ReindexItem, CatalogRelease, Reembed, ScanAndRecover, SetVideoStatus;
    hide PurgeVideo;
    match step
    case OpenStep(runId, now) => OpenLeaves(w, runId, now);
    case CutoverStep(runId, modelReady, id, now) => CutoverLeaves(w, runId, modelReady, id, now);
    case RollbackStep(q, modelReady, now) => RollbackLeaves(w, q, modelReady, now);
    case _ =>
  }

  lemma OpenLeaves(w: World, runId: nat, now: int)
    requires w.release.Some? && w.release.value.status == CandidateReindexing
    ensures Open(w, runId, now).release == w.release
  {
    hide CandidateIndexFor, RecordCandidateIndex;
  }

  lemma CutoverLeaves(w: World, runId: nat, modelReady: bool, id: nat, now: int)
    requires CutoverOutcomeOf(w, runId, modelReady) != CutOver
    ensures Cutover(w, runId, modelReady, id, now).release == w.release
  {
    hide CutoverOutcomeOf;
  }

  lemma RollbackLeaves(w: World, q: RollbackRequest, modelReady: bool, now: int)
    requires w.release.Some? && w.release.value.status == CandidateReindexing
    ensures HandleRollback(w, q, modelReady, now).0 == w
  {
    hide RollbackTarget, MatchesSwitch, ExcludeProjects, ContinueRestore, MarkPreparing, Begun;
    BegunServes(w, q, modelReady, now);
  }

  /** Once a candidate is open, no other candidate opens, no rollback starts, and the release row stays as it is
      through every run, until the candidate is cut over. */
  lemma {:induction false} OpenCandidateStays(w: World, steps: seq<Step>)
    requires w.release.Some? && w.release.value.status == CandidateReindexing && NeverCutsOver(w, steps)
    ensures Run(w, steps).release == w.release
    decreases |steps|
  {
    hide Apply, CutsOver;
    if steps != [] {
      CandidateStaysInStep(w, steps[0]);
      OpenCandidateStays(Apply(w, steps[0]), steps[1..]);
    }
  }

  /** So after a run opened its candidate, no run opens another one before a cutover. */
  lemma OneCandidateAtATime(w: World, runId: nat, now: int, steps: seq<Step>, other: nat)
    requires OpenOutcomeOf(w, runId) == Opened && NeverCutsOver(Open(w, runId, now), steps)
    ensures OpenOutcomeOf(Run(Open(w, runId, now), steps), other) != Opened
  {
    hide Run, NeverCutsOver, CandidateIndexFor;
    OpenCandidateStays(Open(w, runId, now), steps);
  }

  // ---- as many rollbacks as cutovers ----

  /** What the step does to the depth of the stack. */
  ghost function Change(w: World, step: Step): int {
    if CutsOver(w, step) then 1
    else if step.RollbackStep? && HandleRollback(w, step.request, step.modelReady, step.now).1 == Restored then -1
    else 0
  }

  /** The cutovers of the run less its completed rollbacks. */
  ghost function Net(w: World, steps: seq<Step>): int
    decreases |steps|
  {
    if steps == [] then 0 else Change(w, steps[0]) + Net(Apply(w, steps[0]), steps[1..])
  }

  /** At no point have more rollbacks completed than `depth` and the cutovers so far. */
  ghost predicate NeverBelow(w: World, steps: seq<Step>, depth: int)
    decreases |steps|
  {
    depth >= 0 && (steps != [] ==> NeverBelow(Apply(w, steps[0]), steps[1..], depth + Change(w, steps[0])))
  }

  lemma StepOnStack(w: World, step: Step, base: seq<Snapshot>)
    requires Inv(w) && Allowed(w, step) && base <= Stack(w.snapshots)
    ensures var (s, s') := (Stack(w.snapshots), Stack(Apply(w, step).snapshots));
      |s'| == |s| + Change(w, step) && (|s'| >= |base| ==> base <= s')
  {
    hide Inv, Stack, HandleRollback, CutoverOutcomeOf, RollbackTarget, IndexRestorable, MatchesSwitch;
    if step.CutoverStep? {
      CutoverOnStacks(w, step.runId, step.modelReady, step.snapshotId, step.now);
    } else if step.RollbackStep? {
      RollbackRestores(w, step.request, step.modelReady, step.now);
    } else {
      OtherSnapshots(w, step);
    }
  }

  lemma CutoverOnStacks(w: World, runId: nat, modelReady: bool, id: nat, now: int)
    requires Inv(w) && Allowed(w, CutoverStep(runId, modelReady, id, now))
    ensures var (s, s') := (Stack(w.snapshots), Stack(Cutover(w, runId, modelReady, id, now).snapshots));
      if CutoverOutcomeOf(w, runId, modelReady) == CutOver then |s'| == |s| + 1 && s'[..|s|] == s else s' == s
  {
    hide Inv, Stack, CutoverOutcomeOf, RollbackTarget;
    if CutoverOutcomeOf(w, runId, modelReady) == CutOver { CutoverSwitches(w, runId, modelReady, id, now); }
  }

  lemma {:induction false} RunOnStack(w: World, steps: seq<Step>, base: seq<Snapshot>, depth: int)
    requires Inv(w) && AllowedRun(w, steps) && NeverBelow(w, steps, depth)
    requires base <= Stack(w.snapshots) && |Stack(w.snapshots)| == |base| + depth
    ensures var s := Stack(Run(w, steps).snapshots);
      |s| == |base| + depth + Net(w, steps) && base <= s
    decreases |steps|
  {
    hide Inv, Stack, Apply, Allowed, Change;
    if steps != [] {
      var r, d := Apply(w, steps[0]), depth + Change(w, steps[0]);
      StepKeepsInv(w, steps[0]);
      StepOnStack(w, steps[0], base);
      assert NeverBelow(r, steps[1..], d) && d >= 0;
      RunOnStack(r, steps[1..], base, d);
    }
  }

  /** However cutovers, rollbacks and all other steps interleave: when as many rollbacks completed as cutovers, and
      never more, serving is back on the pair it began with, and the snapshot stack is as it was. */
  lemma RollbacksUndoCutovers(w: World, steps: seq<Step>)
    requires Inv(w) && AllowedRun(w, steps) && NeverBelow(w, steps, 0) && Net(w, steps) == 0
    ensures var r := Run(w, steps);
      && r.release.Some? && Stack(r.snapshots) == Stack(w.snapshots)
      && r.release.value.activeModel == w.release.value.activeModel
      && r.release.value.activeIndex == w.release.value.activeIndex
  {
    hide Run, AllowedRun, NeverBelow, Net, IsStack, Stack, PreviousIsBelow, CandidateFields, CandidateApart, DataLinked;
    RunKeepsInv(w, steps);
    RunOnStack(w, steps, Stack(w.snapshots), 0);
  }
}
