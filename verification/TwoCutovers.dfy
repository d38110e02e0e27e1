/** Two releases that go live one after the other, over tables that may hold any data. */
module TwoCutovers {
  import opened Wrappers
  import opened SnapshotRegistry
  import opened Serving
  import opened ServingInvariant

  // ---- the release, its snapshots and the pipeline runs; everything else is `d` ----

  function Initial(d: World): World {
    d.(release := Some(Release(Stable, "m0", "i0", None, None, None, None, None, None, None)),
       snapshots := [Snapshot(0, "m0", "i0", Active, None, 0)],
       runs := map[1 := PipelineRun(ReadyForRelease, Some("m1"), Some("i1"), None),
                   2 := PipelineRun(ReadyForRelease, Some("m2"), Some("i2"), None)])
  }

  function OpenedOnce(d: World): World {
    Initial(d).(release :=
      Some(Release(CandidateReindexing, "m0", "i0", None, None, Some("m1"), Some("i1"), Some(1), None, None)))
  }

  function SwitchedOnce(d: World): World {
    d.(release := Some(Release(Stable, "m1", "i1", Some("m0"), Some("i0"), None, None, None, None, Some(2))),
       snapshots := [Snapshot(0, "m0", "i0", PreviousStable, None, 0), Snapshot(1, "m1", "i1", Active, Some(0), 2)],
       runs := map[1 := PipelineRun(DeployCompleted, Some("m1"), Some("i1"), Some(2)),
                   2 := PipelineRun(ReadyForRelease, Some("m2"), Some("i2"), None)])
  }

  function OpenedTwice(d: World): World {
    SwitchedOnce(d).(release :=
      Some(Release(CandidateReindexing, "m1", "i1", Some("m0"), Some("i0"), Some("m2"), Some("i2"), Some(3), None,
        Some(2))))
  }

  function SwitchedTwice(d: World): World {
    d.(release := Some(Release(Stable, "m2", "i2", Some("m1"), Some("i1"), None, None, None, None, Some(4))),
       snapshots := [Snapshot(0, "m0", "i0", Superseded, None, 0),
                     Snapshot(1, "m1", "i1", PreviousStable, Some(0), 2), Snapshot(2, "m2", "i2", Active, Some(1), 4)],
       runs := map[1 := PipelineRun(DeployCompleted, Some("m1"), Some("i1"), Some(2)),
                   2 := PipelineRun(DeployCompleted, Some("m2"), Some("i2"), Some(4))])
  }

  lemma InitialIsSound(d: World)
    requires DataLinked(d)
    ensures Inv(Initial(d))
  {
    hide DataLinked;
    LiveRows(d);
    assert Stack(Initial(d).snapshots) == [Initial(d).snapshots[0].(status := Superseded)];
    SameLinks(d, Initial(d));
  }

  lemma SameLinks(d: World, w: World)
    requires w == d.(release := w.release, snapshots := w.snapshots, runs := w.runs)
    ensures DataLinked(w) == DataLinked(d)
    ensures forall i :: Untouched(w, i) == Untouched(d, i)
    ensures forall target, excluded :: OldOnlyLeft(w, target, excluded) == OldOnlyLeft(d, target, excluded)
  {
    assert forall s, target :: OldOnlyVideos(w, s, target) == OldOnlyVideos(d, s, target);
    assert forall excluded :: SourceIndexes(w, excluded) == SourceIndexes(d, excluded);
  }

  lemma LiveRows(d: World)
    ensures Live(Initial(d).snapshots) == [0] && Live(SwitchedOnce(d).snapshots) == [0, 1]
  {
    hide Live;
    LiveAll(Initial(d).snapshots);
    LiveAll(SwitchedOnce(d).snapshots);
  }

  lemma SwitchedTwiceIsSound(d: World)
    requires DataLinked(d)
    ensures Inv(SwitchedTwice(d))
  {
    hide DataLinked, IsStack, Stack;
    LastRows(d);
    SameLinks(d, SwitchedTwice(d));
  }

  lemma LastRows(d: World)
    ensures var rows := SwitchedTwice(d).snapshots;
      IsStack(rows) && Stack(rows) == [rows[0], rows[1].(status := Superseded), rows[2].(status := Superseded)]
  {
    hide Live;
    LastLive(d);
  }

  lemma LastLive(d: World)
    ensures Live(SwitchedTwice(d).snapshots) == [0, 1, 2]
  {
    hide Live;
    LiveAll(SwitchedTwice(d).snapshots);
  }

  lemma FirstOpen(d: World)
    requires "i1" !in d.catalog && Untouched(d, "i1")
    ensures Allowed(Initial(d), OpenStep(1, 1)) && Apply(Initial(d), OpenStep(1, 1)) == OpenedOnce(d)
  {
    hide Untouched;
    SameLinks(d, Initial(d));
  }

  lemma FirstRows(d: World)
    ensures RecordCutover(OpenedOnce(d).snapshots, 1, "m1", "i1", 2) == SwitchedOnce(d).snapshots
  {
    var rows := OpenedOnce(d).snapshots;
    assert Find(rows, PreviousStable).None?;
    FindUnique(rows, Active, 0);
  }

  lemma FirstGate(d: World)
    requires !OldOnlyLeft(d, "i0", {"i0", "i1"})
    ensures CutoverOutcomeOf(OpenedOnce(d), 1, true) == CutOver && CutoverTime(OpenedOnce(d), 1, 2) == 2
  {
    hide OldOnlyLeft;
    SameLinks(d, OpenedOnce(d));
    assert ExcludedIndexes(OpenedOnce(d).release.value) == {"i0", "i1"};
  }

  lemma FirstRowsAreOlder(d: World)
    ensures CapturedBefore(OpenedOnce(d).snapshots, 2) && SwitchedBefore(OpenedOnce(d), 2)
  {
    hide Live;
    LiveRows(d);
  }

  lemma FirstCutover(d: World)
    requires !OldOnlyLeft(d, "i0", {"i0", "i1"})
    ensures Allowed(OpenedOnce(d), CutoverStep(1, true, 1, 2))
      && Apply(OpenedOnce(d), CutoverStep(1, true, 1, 2)) == SwitchedOnce(d)
  {
    hide RecordCutover, OldOnlyLeft, CutoverOutcomeOf, CutoverTime, CapturedBefore, SwitchedBefore;
    FirstGate(d);
    FirstRowsAreOlder(d);
    FirstRows(d);
  }

  lemma SecondOpen(d: World)
    requires "i2" !in d.catalog && Untouched(d, "i2")
    ensures Allowed(SwitchedOnce(d), OpenStep(2, 3)) && Apply(SwitchedOnce(d), OpenStep(2, 3)) == OpenedTwice(d)
  {
    hide Untouched;
    SameLinks(d, SwitchedOnce(d));
  }

  lemma SecondRows(d: World)
    ensures RecordCutover(OpenedTwice(d).snapshots, 2, "m2", "i2", 4) == SwitchedTwice(d).snapshots
  {
    var rows := OpenedTwice(d).snapshots;
    FindUnique(rows, PreviousStable, 0);
    var demoted := [rows[0].(status := Superseded), rows[1]];
    assert SetStatus(rows, Some(0), Superseded) == demoted;
    FindUnique(demoted, Active, 1);
  }

  lemma SecondGate(d: World)
    requires !OldOnlyLeft(d, "i1", {"i1", "i2"})
    ensures CutoverOutcomeOf(OpenedTwice(d), 2, true) == CutOver && CutoverTime(OpenedTwice(d), 2, 4) == 4
  {
    hide OldOnlyLeft;
    SameLinks(d, OpenedTwice(d));
    assert ExcludedIndexes(OpenedTwice(d).release.value) == {"i1", "i2"};
  }

  lemma SecondRowsAreOlder(d: World)
    ensures CapturedBefore(OpenedTwice(d).snapshots, 4) && SwitchedBefore(OpenedTwice(d), 4)
  {
    hide Live;
    LiveRows(d);
  }

  lemma SecondCutover(d: World)
    requires !OldOnlyLeft(d, "i1", {"i1", "i2"})
    ensures Allowed(OpenedTwice(d), CutoverStep(2, true, 2, 4))
      && Apply(OpenedTwice(d), CutoverStep(2, true, 2, 4)) == SwitchedTwice(d)
  {
    hide RecordCutover, OldOnlyLeft, CutoverOutcomeOf, CutoverTime, CapturedBefore, SwitchedBefore;
    SecondGate(d);
    SecondRowsAreOlder(d);
    SecondRows(d);
  }

  // ---- the steps ----

  function FirstSwitch(): seq<Step> { [OpenStep(1, 1), CutoverStep(1, true, 1, 2)] }
  function SecondSwitch(): seq<Step> { [OpenStep(2, 3), CutoverStep(2, true, 2, 4)] }

  lemma Next(w: World, steps: seq<Step>, step: Step) returns (more: seq<Step>)
    requires AllowedRun(w, steps) && Allowed(Run(w, steps), step)
    ensures more == steps + [step] && AllowedRun(w, more) && Run(w, more) == Apply(Run(w, steps), step)
  {
    more := steps + [step];
    RunExtend(w, steps, step);
  }

  lemma SwitchFirst(w: World, steps: seq<Step>, d: World) returns (more: seq<Step>)
    requires AllowedRun(w, steps) && Run(w, steps) == Initial(d)
    requires "i1" !in d.catalog && Untouched(d, "i1") && !OldOnlyLeft(d, "i0", {"i0", "i1"})
    ensures more == steps + FirstSwitch() && AllowedRun(w, more) && Run(w, more) == SwitchedOnce(d)
  {
    hide Apply, Allowed, Run, AllowedRun, Initial, OpenedOnce, SwitchedOnce, Untouched, OldOnlyLeft;
    FirstOpen(d);
    FirstCutover(d);
    more := Next(w, steps, OpenStep(1, 1));
    more := Next(w, more, CutoverStep(1, true, 1, 2));
  }

  lemma SwitchSecond(w: World, steps: seq<Step>, d: World) returns (more: seq<Step>)
    requires AllowedRun(w, steps) && Run(w, steps) == SwitchedOnce(d)
    requires "i2" !in d.catalog && Untouched(d, "i2") && !OldOnlyLeft(d, "i1", {"i1", "i2"})
    ensures more == steps + SecondSwitch() && AllowedRun(w, more) && Run(w, more) == SwitchedTwice(d)
  {
    hide Apply, Allowed, Run, AllowedRun, SwitchedOnce, OpenedTwice, SwitchedTwice, Untouched, OldOnlyLeft;
    SecondOpen(d);
    SecondCutover(d);
    more := Next(w, steps, OpenStep(2, 3));
    more := Next(w, more, CutoverStep(2, true, 2, 4));
  }

  lemma SwitchTwice(w: World, steps: seq<Step>, d: World) returns (more: seq<Step>)
    requires AllowedRun(w, steps) && Run(w, steps) == Initial(d)
    requires "i1" !in d.catalog && Untouched(d, "i1") && !OldOnlyLeft(d, "i0", {"i0", "i1"})
    requires "i2" !in d.catalog && Untouched(d, "i2") && !OldOnlyLeft(d, "i1", {"i1", "i2"})
    ensures more == steps + FirstSwitch() + SecondSwitch() && AllowedRun(w, more) && Run(w, more) == SwitchedTwice(d)
  {
    hide Run, AllowedRun, Initial, SwitchedOnce, SwitchedTwice, Untouched, OldOnlyLeft;
    more := SwitchFirst(w, steps, d);
    more := SwitchSecond(w, more, d);
  }

  // ---- the vector of one chunk ----

  function Vectors(c: nat): map<nat, Vector> { map[c := []] }

  lemma AddsOne(entries: map<(string, nat), Entry>, index: string, v: nat, model: string, c: nat)
    ensures AddEntries(entries, index, v, model, Vectors(c)) == entries[(index, c) := Entry(v, model, [])]
  {
    hide AddEntries;
    assert AddEntries(entries, index, v, model, Vectors(c)).Keys == entries.Keys + {(index, c)};
  }
}
