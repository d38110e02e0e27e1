/** Two runs in which one delivered pair completes two rollbacks: its time carries an offset and matches two
    switches, or a cutover reuses the time of the switch that was undone. */
module TwicePopped {
  import opened Wrappers
  import opened SnapshotRegistry
  import opened Serving
  import opened ServingInvariant
  import opened Redelivery

  /** Release `m` went live at 10 over release `a`. A run for the same model is ready; `reused` is the cutover time
      that an earlier attempt left in it. */
  function Before(reused: Option<int>): World {
    World(
      Some(Release(Stable, "m", "im", Some("a"), Some("ia"), None, None, None, None, Some(10))),
      [Snapshot(0, "a", "ia", PreviousStable, None, 0), Snapshot(1, "m", "im", Active, Some(0), 10)],
      map[7 := PipelineRun(ReadyForRelease, Some("m"), Some("in"), reused)],
      map["ia" := CatalogRow("a", 1, false)], map[], map[0 := Video(None, Ready)], map[0 := Chunk(0, "s", "a", None)],
      map[("ia", 0) := Entry(0, "a", [])], map[], map[], {})
  }

  /** Asks to leave the switch at 20, ten units ahead of UTC, which is the instant 10; or the one at 10 in UTC. */
  function Twice(reused: Option<int>): RollbackRequest {
    RollbackRequest("v1", "m", if reused.Some? then Datetime(10, Some(0)) else Datetime(20, Some(10)))
  }

  function SecondSwitch(reused: Option<int>): int { if reused.Some? then reused.value else 20 }

  function RolledBackOnce(reused: Option<int>): World {
    Before(reused).(
      release := Some(Release(Stable, "a", "ia", None, None, None, None, None, None, Some(15))),
      snapshots := [Snapshot(0, "a", "ia", Active, None, 0), Snapshot(1, "m", "im", RolledBack, Some(0), 10)])
  }

  function Reopened(reused: Option<int>): World {
    RolledBackOnce(reused).(release :=
      Some(Release(CandidateReindexing, "a", "ia", None, None, Some("m"), Some("in"), Some(16), None, Some(15))))
  }

  function CutOverAgain(reused: Option<int>): World {
    var t := SecondSwitch(reused);
    RolledBackOnce(reused).(
      release := Some(Release(Stable, "m", "in", Some("a"), Some("ia"), None, None, None, None, Some(t))),
      snapshots := [Snapshot(0, "a", "ia", PreviousStable, None, 0), Snapshot(1, "m", "im", RolledBack, Some(0), 10),
                    Snapshot(2, "m", "in", Active, Some(0), t)],
      runs := map[7 := PipelineRun(DeployCompleted, Some("m"), Some("in"), Some(t))])
  }

  lemma FirstRollback(reused: Option<int>)
    ensures HandleRollback(Before(reused), Twice(reused), true, 15) == (RolledBackOnce(reused), Restored)
  {
    hide AdmissionOf, RollbackTarget, IndexRestorable, ExcludeProjects, RecordRollback, Twice;
    var w := Before(reused);
    FirstAdmission(reused);
    FirstRows(reused);
    SameTarget(w, MarkPreparing(w));
  }

  lemma FirstAdmission(reused: Option<int>)
    ensures var w := Before(reused);
      && AdmissionOf(w, Twice(reused)) == Start && RollbackTarget(w) == Some(("a", "ia")) && IndexRestorable(w, "ia")
      && ExcludeProjects(w, "m") == w
  {
    FindUnique(Before(reused).snapshots, PreviousStable, 0);
    assert ("ia", 0) in Before(reused).entries;
    assert ExcludeProjects(Before(reused), "m").projects == map[];
  }

  lemma FirstRows(reused: Option<int>)
    ensures RecordRollback(Before(reused).snapshots) == Some(RolledBackOnce(reused).snapshots)
  {
    var rows := Before(reused).snapshots;
    FindUnique(rows, PreviousStable, 0);
    FindUnique(rows, Active, 1);
    assert BeforeNextPrior(rows) == RolledBackOnce(reused).snapshots;
  }

  lemma Reopening(reused: Option<int>)
    ensures Open(RolledBackOnce(reused), 7, 16) == Reopened(reused)
  {
  }

  lemma SecondCutover(reused: Option<int>)
    ensures CutoverOutcomeOf(Reopened(reused), 7, true) == CutOver
    ensures Cutover(Reopened(reused), 7, true, 2, 20) == CutOverAgain(reused)
  {
    hide RecordCutover;
    var w := Reopened(reused);
    assert forall s :: s !in SourceIndexes(w, ExcludedIndexes(w.release.value));
    SecondRows(reused);
  }

  lemma SecondRows(reused: Option<int>)
    ensures RecordCutover(Reopened(reused).snapshots, 2, "m", "in", SecondSwitch(reused))
      == CutOverAgain(reused).snapshots
  {
    assert Find(Reopened(reused).snapshots, PreviousStable).None?;
    FindUnique(Reopened(reused).snapshots, Active, 0);
  }

  lemma SecondRollback(reused: Option<int>)
    requires reused in {None, Some(10)}
    ensures HandleRollback(CutOverAgain(reused), Twice(reused), true, 30).1 == Restored
  {
    hide CutOverAgain, Twice, ContinueRestore, ExcludeProjects, MarkPreparing, RollbackTarget, IndexRestorable;
    var w := CutOverAgain(reused);
    SecondAdmission(reused);
    SameTarget(w, MarkPreparing(ExcludeProjects(w, w.release.value.activeModel)));
    BegunRestores(w, Twice(reused), true, 30);
  }

  lemma SecondAdmission(reused: Option<int>)
    requires reused in {None, Some(10)}
    ensures var w := CutOverAgain(reused);
      && w.release.Some? && AdmissionOf(w, Twice(reused)) == Start
      && RollbackTarget(w).Some? && IndexRestorable(w, RollbackTarget(w).value.1)
  {
    FindUnique(CutOverAgain(reused).snapshots, PreviousStable, 0);
    assert ("ia", 0) in CutOverAgain(reused).entries;
  }

  lemma BegunRestores(w: World, q: RollbackRequest, modelReady: bool, now: int)
    requires w.release.Some? && AdmissionOf(w, q) == Start && RollbackTarget(w).Some? && modelReady
    requires IndexRestorable(Begun(w, q), RollbackTarget(w).value.1)
    ensures HandleRollback(w, q, modelReady, now).1 == Restored
  {
    hide AdmissionOf, Begun, RollbackTarget, IndexRestorable, CompleteRestore;
    BegunServes(w, q, modelReady, now);
  }

  lemma Prepend(w: World, step: Step, rest: seq<Step>)
    ensures Completed(w, [step] + rest)
         == (if step.RollbackStep? && HandleRollback(w, step.request, step.modelReady, step.now).1 == Restored
             then 1 else 0)
          + Completed(Apply(w, step), rest)
    ensures Pairs([step] + rest)
         == (if step.RollbackStep? then {(step.request.expectedModel, step.request.expectedSwitchedAt)} else {})
           + Pairs(rest)
  {
    hide Apply, HandleRollback;
    assert ([step] + rest)[0] == step && ([step] + rest)[1..] == rest;
  }

  /** One request, delivered before and after a cutover. */
  function Steps(reused: Option<int>): seq<Step> {
    [RollbackStep(Twice(reused), true, 15), OpenStep(7, 16), CutoverStep(7, true, 2, 20),
      RollbackStep(Twice(reused), true, 30)]
  }

  lemma BothComplete(reused: Option<int>)
    requires reused in {None, Some(10)}
    ensures Completed(Before(reused), Steps(reused)) == 2 && |Pairs(Steps(reused))| == 1
  {
    hide Before, RolledBackOnce, Reopened, CutOverAgain, HandleRollback, Open, Cutover, CutoverOutcomeOf, Twice;
    FirstRollback(reused);
    Reopening(reused);
    SecondCutover(reused);
    SecondRollback(reused);
    var q := Twice(reused);
    var first, last := RollbackStep(q, true, 15), RollbackStep(q, true, 30);
    var open, cutover := OpenStep(7, 16), CutoverStep(7, true, 2, 20);
    Prepend(CutOverAgain(reused), last, []);
    Prepend(Reopened(reused), cutover, [last]);
    Prepend(RolledBackOnce(reused), open, [cutover, last]);
    Prepend(Before(reused), first, [open, cutover, last]);
    assert [last] + [] == [last] && [cutover] + [last] == [cutover, last]
      && [open] + [cutover, last] == [open, cutover, last];
    assert [first] + [open, cutover, last] == Steps(reused);
    assert Pairs(Steps(reused)) == {(q.expectedModel, q.expectedSwitchedAt)};
  }

  lemma BeforeIsSound(reused: Option<int>)
    ensures Inv(Before(reused))
  {
    hide Live, Stack, IsStack;
    BeforeIsStack(reused);
  }

  lemma BeforeIsStack(reused: Option<int>)
    ensures var rows := Before(reused).snapshots;
      IsStack(rows) && Stack(rows) == [rows[0].(status := Superseded), rows[1].(status := Superseded)]
  {
    hide Live;
    LiveAll(Before(reused).snapshots);
    assert Live(Before(reused).snapshots) == [0, 1];
  }

  lemma OpenIsAllowed(reused: Option<int>)
    ensures Allowed(RolledBackOnce(reused), OpenStep(7, 16))
  {
  }

  lemma RollbacksAreAllowed(reused: Option<int>)
    requires reused in {None, Some(10)}
    ensures Allowed(Before(reused), RollbackStep(Twice(reused), true, 15))
    ensures Allowed(CutOverAgain(reused), RollbackStep(Twice(reused), true, 30))
  {
  }

  lemma RowsAreOlder(reused: Option<int>)
    requires reused in {None, Some(10)}
    ensures CapturedBefore(Reopened(reused).snapshots, SecondSwitch(reused))
  {
    var rows := Reopened(reused).snapshots;
    assert [rows[0]] + [rows[1]] == rows;
    assert Live([rows[0]]) == [0] by { LiveAll([rows[0]]); }
    LiveAppend([rows[0]], rows[1]);
  }

  lemma CutoverIsAllowedIff(reused: Option<int>)
    requires reused in {None, Some(10)}
    ensures Allowed(Reopened(reused), CutoverStep(7, true, 2, 20)) <==> reused.None?
  {
    hide OldOnlyLeft, CapturedBefore, CutoverOutcomeOf;
    RowsAreOlder(reused);
    SecondCutover(reused);
  }

  lemma RunsThrough(reused: Option<int>)
    requires reused in {None, Some(10)}
    ensures var (w, steps) := (Before(reused), Steps(reused));
      && Run(w, steps[..0]) == w && Run(w, steps[..1]) == RolledBackOnce(reused)
      && Run(w, steps[..2]) == Reopened(reused) && Run(w, steps[..3]) == CutOverAgain(reused)
  {
    hide Before, RolledBackOnce, Reopened, CutOverAgain, HandleRollback, Open, Cutover, CutoverOutcomeOf, Twice;
    FirstRollback(reused);
    Reopening(reused);
    SecondCutover(reused);
    var w, steps := Before(reused), Steps(reused);
    RunNothing(w);
    assert steps[..0] == [];
    forall k: nat | k < 3 ensures Run(w, steps[..k + 1]) == Apply(Run(w, steps[..k]), steps[k]) {
      RunExtend(w, steps[..k], steps[k]);
      assert steps[..k] + [steps[k]] == steps[..k + 1];
    }
    assert steps[..0 + 1] == steps[..1] && steps[..1 + 1] == steps[..2] && steps[..2 + 1] == steps[..3];
  }

  // ---- a time with an offset ----

  lemma StepsAreAllowed()
    ensures AllowedRun(Before(None), Steps(None))
  {
    hide Before, RolledBackOnce, Reopened, CutOverAgain, HandleRollback, Open, Cutover, CutoverOutcomeOf, Twice;
    hide Allowed;
    FirstRollback(None);
    Reopening(None);
    SecondCutover(None);
    RollbacksAreAllowed(None);
    OpenIsAllowed(None);
    CutoverIsAllowedIff(None);
    var w, q := Before(None), Twice(None);
    RunNothing(w);
    RunExtend(w, [], RollbackStep(q, true, 15));
    RunExtend(w, [] + [RollbackStep(q, true, 15)], OpenStep(7, 16));
    RunExtend(w, [] + [RollbackStep(q, true, 15)] + [OpenStep(7, 16)], CutoverStep(7, true, 2, 20));
    RunExtend(w, [] + [RollbackStep(q, true, 15)] + [OpenStep(7, 16)] + [CutoverStep(7, true, 2, 20)],
      RollbackStep(q, true, 30));
    assert Steps(None) ==
      [] + [RollbackStep(q, true, 15)] + [OpenStep(7, 16)] + [CutoverStep(7, true, 2, 20)]
        + [RollbackStep(q, true, 30)];
  }

  /** The factor of two is needed: one pair, delivered twice with a cutover between, completes two rollbacks. */
  lemma OnePairPopsTwice() returns (w: World, steps: seq<Step>)
    ensures Inv(w) && w.release.value.status == Stable && AllowedRun(w, steps)
    ensures |Pairs(steps)| == 1 && Completed(w, steps) == 2
  {
    hide Inv, Completed, Pairs, AllowedRun;
    w, steps := Before(None), Steps(None);
    BeforeIsSound(None);
    StepsAreAllowed();
    BothComplete(None);
  }

  // ---- a cutover time used twice ----

  lemma OneRepeat()
    ensures Repeats(Before(Some(10)), Steps(Some(10))) == 1
  {
    hide RolledBackOnce, Reopened, CutOverAgain, HandleRollback, Open, Cutover, CutoverOutcomeOf, Twice;
    FirstRollback(Some(10));
    Reopening(Some(10));
    SecondCutover(Some(10));
    SecondRollback(Some(10));
    ReusedTime();
    var q := Twice(Some(10));
    var first, last := RollbackStep(q, true, 15), RollbackStep(q, true, 30);
    var open, cutover := OpenStep(7, 16), CutoverStep(7, true, 2, 20);
    PrependRepeats(CutOverAgain(Some(10)), last, [], {10, 15});
    PrependRepeats(Reopened(Some(10)), cutover, [last], {10, 15});
    PrependRepeats(RolledBackOnce(Some(10)), open, [cutover, last], {10, 15});
    PrependRepeats(Before(Some(10)), first, [open, cutover, last], {10});
    assert {10} + {15} == {10, 15} && {10, 15} + {10} == {10, 15};
    assert [last] + [] == [last] && [cutover] + [last] == [cutover, last]
      && [open] + [cutover, last] == [open, cutover, last];
    assert [first] + [open, cutover, last] == Steps(Some(10));
  }

  lemma ReusedTime()
    ensures CutoverTime(Reopened(Some(10)), 7, 20) == 10
  {
  }

  lemma PrependRepeats(w: World, step: Step, rest: seq<Step>, seen: set<int>)
    ensures RepeatsSince(w, [step] + rest, seen)
      == match SwitchTime(w, step)
         case None => RepeatsSince(Apply(w, step), rest, seen)
         case Some(t) => One(t in seen) + RepeatsSince(Apply(w, step), rest, seen + {t})
  {
    hide Apply, SwitchTime;
    assert ([step] + rest)[0] == step && ([step] + rest)[1..] == rest;
  }

  /** Even a time in UTC pops twice when a cutover reuses the time of the switch that was undone: a run from a sound
      start whose steps are all allowed but for that time. */
  lemma ReusedSwitchTimePopsTwice() returns (w: World, steps: seq<Step>)
    ensures Inv(w) && w.release.value.status == Stable
    ensures |steps| == 4 && CutsOver(Run(w, steps[..2]), steps[2])
      && CapturedBefore(Run(w, steps[..2]).snapshots, CutoverTime(Run(w, steps[..2]), steps[2].runId, steps[2].now))
    ensures forall k :: 0 <= k < 4 && k != 2 ==> Allowed(Run(w, steps[..k]), steps[k])
    ensures forall s <- steps :: s.RollbackStep? ==> s.request.expectedSwitchedAt.offset == Some(0)
    ensures |Pairs(steps)| == 1 && Repeats(w, steps) == 1 && Completed(w, steps) == 2
  {
    hide Inv, Completed, Pairs, Repeats, Run, Allowed, CapturedBefore, Open, Cutover, CutoverTime, CutoverOutcomeOf;
    hide Before, RolledBackOnce, Reopened, CutOverAgain;
    w, steps := Before(Some(10)), Steps(Some(10));
    ReusedTime();
    BeforeIsSound(Some(10));
    BeforeIsStable();
    RunsThrough(Some(10));
    RollbacksAreAllowed(Some(10));
    OpenIsAllowed(Some(10));
    RowsAreOlder(Some(10));
    SecondCutover(Some(10));
    OneRepeat();
    BothComplete(Some(10));
  }

  lemma BeforeIsStable()
    ensures Before(Some(10)).release.Some? && Before(Some(10)).release.value.status == Stable
  {
  }
}
