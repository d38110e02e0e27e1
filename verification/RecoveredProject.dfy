/** A second rollback in a row misses the project that was recovered after the first one: re-embedding puts its
    chunks into the index that serves then, but they stay marked with the model that they were stored under. */
module RecoveredProject {
  import opened Wrappers
  import opened SnapshotRegistry
  import opened Serving
  import opened ServingInvariant
  import opened Coverage
  import opened Exclusion
  import opened TwoCutovers

  /** Chunk 0, of no project, is in all three indexes; chunk 1 of project 0 was stored under the last model. */
  function Data(): World {
    World(None, [], map[],
      map["i0" := CatalogRow("m0", 1, false), "i1" := CatalogRow("m1", 1, false), "i2" := CatalogRow("m2", 1, false)],
      map[0 := Servable], map[0 := Video(Some(0), Ready), 1 := Video(None, Ready)],
      map[0 := Chunk(1, "s", "m0", None), 1 := Chunk(0, "s", "m2", None)],
      map[("i0", 0) := Entry(1, "m0", []), ("i1", 0) := Entry(1, "m1", []), ("i2", 0) := Entry(1, "m2", []),
          ("i2", 1) := Entry(0, "m2", [])],
      map[], map[], {})
  }

  function Start(): World { SwitchedTwice(Data()) }

  /** The release and its snapshots after one rollback. */
  function RolledBackOnce(d: World): World {
    d.(release := Some(Release(Stable, "m1", "i1", None, None, None, None, None, None, Some(5))),
       snapshots := [Snapshot(0, "m0", "i0", PreviousStable, None, 0), Snapshot(1, "m1", "i1", Active, Some(0), 2),
                     Snapshot(2, "m2", "i2", RolledBack, Some(1), 4)],
       runs := SwitchedTwice(d).runs)
  }

  function Asked(): Reembedding { Reembedding(0, "m1", "i1") }

  function Left(): World { Data().(projects := map[0 := RollbackExcluded]) }
  function Scanned(): World { Left().(requests := {Asked()}) }
  function Reembedded(): World { Scanned().(entries := Data().entries[("i1", 1) := Entry(0, "m1", [])]) }
  function Reentered(): World { Reembedded().(projects := map[0 := Servable]) }

  function First(): RollbackRequest { RollbackRequest("v1", "m2", Utc(4)) }
  function Second(): RollbackRequest { RollbackRequest("v1", "m1", Utc(5)) }

  lemma StartIsSound()
    ensures Inv(Start())
  {
    hide Inv, DataLinked;
    LinkedData();
    SwitchedTwiceIsSound(Data());
  }

  lemma LinkedData()
    ensures DataLinked(Data())
  {
  }

  // ---- the first rollback ----

  lemma FirstAdmission()
    ensures var w := Start();
      && AdmissionOf(w, First()).Start? && RollbackTarget(w) == Some(("m1", "i1")) && IndexRestorable(w, "i1")
  {
    FindUnique(Start().snapshots, PreviousStable, 1);
    assert ("i1", 0) in Start().entries;
  }

  lemma FirstExcludes()
    ensures ExcludeProjects(Start(), "m2") == SwitchedTwice(Left())
  {
    hide ExcludeProjects;
    assert StoredUnder(Start(), 1, 0, "m2");
    ExcludesStoredUnder(Start(), "m2", 0);
    SameProjects(Start());
    assert ExcludeProjects(Start(), "m2").projects == map[0 := RollbackExcluded];
  }

  lemma FirstRows()
    ensures RecordRollback(Start().snapshots) == Some(RolledBackOnce(Left()).snapshots)
  {
    var rows := Start().snapshots;
    FindUnique(rows, PreviousStable, 1);
    FindUnique(rows, Active, 2);
    assert BeforeNextPrior(rows) == [rows[0], rows[1].(status := Active), rows[2].(status := RolledBack)];
    FirstIsLatest(rows[0], rows[1].(status := Active), rows[2].(status := RolledBack));
    assert RollbackWith(rows, Some(0)) == RolledBackOnce(Left()).snapshots;
  }

  lemma FirstIsLatest(a: Snapshot, b: Snapshot, c: Snapshot)
    requires a.status == Superseded && b.status != Superseded && c.status != Superseded
    ensures LatestSuperseded([a, b, c]) == Some(0)
  {
    assert [a, b, c][..2] == [a, b] && [a, b][..1] == [a] && [a][..0] == [];
    assert LatestSuperseded([a]) == Some(0);
    assert LatestSuperseded([a, b]) == Some(0);
  }

  lemma FirstRollback()
    ensures HandleRollback(Start(), First(), true, 5) == (RolledBackOnce(Left()), Restored)
  {
    hide AdmissionOf, RollbackTarget, IndexRestorable, ExcludeProjects, RecordRollback, First, Data;
    var w := SwitchedTwice(Left());
    FirstAdmission();
    FirstExcludes();
    FirstRows();
    SameTarget(Start(), MarkPreparing(w));
  }

  // ---- recovery ----

  lemma Scans()
    ensures ScanAndRecover(RolledBackOnce(Left())) == RolledBackOnce(Scanned())
  {
    hide ProjectRestored, VideoRestored, Dispatch, Reenter;
    var w := RolledBackOnce(Left());
    assert 0 in ExcludedProjects(w);
    ScanAsks();
    NotRestored(RolledBackOnce(Scanned()));
    StaysExcluded(RolledBackOnce(Scanned()));
  }

  lemma ScanAsks()
    ensures Dispatch(RolledBackOnce(Left()), "m1", "i1") == RolledBackOnce(Scanned())
  {
    hide VideoRestored;
    var w := RolledBackOnce(Left());
    NotRestored(w);
    assert ExcludedProjects(w) == {0};
    assert DispatchSet(w, "m1", "i1") == {0};
    assert Dispatch(w, "m1", "i1").requests == {Asked()};
  }

  lemma StaysExcluded(w: World)
    requires w.projects == map[0 := RollbackExcluded] && !ProjectRestored(w, 0, "m1", "i1")
    ensures Reenter(w, "m1", "i1") == w
  {
    hide ProjectRestored;
    assert Reenter(w, "m1", "i1").projects == w.projects;
  }

  lemma DataFacts()
    ensures 1 in Data().chunks && Data().chunks[1].video == 0 && 0 in Data().videos
  {
  }

  lemma NotRestored(w: World)
    requires w.videos == Data().videos && w.chunks == Data().chunks && ("i1", 1) !in w.entries
    ensures !VideoRestored(w, 0, "m1", "i1") && !ProjectRestored(w, 0, "m1", "i1")
  {
    assert 1 in ChunksOf(w, 0) && 0 in ReadyVideos(w, 0);
  }

  lemma Reembeds()
    ensures var w := RolledBackOnce(Scanned());
      Allowed(w, ReembedStep(Asked(), Vectors(1))) && Reembed(w, Asked(), Vectors(1)) == RolledBackOnce(Reembedded())
  {
    hide AddEntries, Data;
    var w := RolledBackOnce(Scanned());
    DataFacts();
    assert Vectors(1).Keys == {1} <= ChunksOf(w, 0);
    AddsOne(w.entries, "i1", 0, "m1", 1);
  }

  lemma Reenters()
    ensures ScanAndRecover(RolledBackOnce(Reembedded())) == RolledBackOnce(Reentered())
  {
    hide VideoRestored, ProjectRestored, Dispatch, Reenter, ReadyVideos;
    var w := RolledBackOnce(Reembedded());
    IsRestored(w);
    assert 0 in ExcludedProjects(w);
    NothingToAsk(w);
    ComesBack(w);
  }

  lemma NothingToAsk(w: World)
    requires w.projects.Keys == {0} && ReadyVideos(w, 0) == {0} && VideoRestored(w, 0, "m1", "i1")
    ensures Dispatch(w, "m1", "i1") == w
  {
    hide VideoRestored;
    assert forall v <- DispatchSet(w, "m1", "i1") :: v in ReadyVideos(w, 0);
    assert DispatchSet(w, "m1", "i1") == {};
    assert Dispatch(w, "m1", "i1").requests == w.requests;
  }

  lemma ComesBack(w: World)
    requires w.projects == map[0 := RollbackExcluded] && ReadyVideos(w, 0) == {0} && VideoRestored(w, 0, "m1", "i1")
    ensures Reenter(w, "m1", "i1") == w.(projects := map[0 := Servable])
  {
    hide VideoRestored, ReadyVideos;
    assert Reenter(w, "m1", "i1").projects == map[0 := Servable];
  }

  lemma IsRestored(w: World)
    requires w.videos == Data().videos && w.chunks == Data().chunks
    requires ("i1", 1) in w.entries && w.entries[("i1", 1)].model == "m1"
    ensures VideoRestored(w, 0, "m1", "i1") && ReadyVideos(w, 0) == {0}
  {
    assert ChunksOf(w, 0) == {1};
  }

  // ---- the second rollback ----

  lemma SecondAdmission()
    ensures var w := RolledBackOnce(Reentered());
      && AdmissionOf(w, Second()).Start? && RollbackTarget(w) == Some(("m0", "i0")) && IndexRestorable(w, "i0")
  {
    FindUnique(RolledBackOnce(Reentered()).snapshots, PreviousStable, 0);
    assert ("i0", 0) in RolledBackOnce(Reentered()).entries;
  }

  lemma ChunkIsExposed()
    ensures var w := RolledBackOnce(Reentered());
      && ("i1", 1) in w.entries && ("i0", 1) !in w.entries && Serves(w, "i1") && IsReady(w, 1) && Exposed(w, 1)
  {
  }

  function Recovery(): seq<Step> {
    [RollbackStep(First(), true, 5), RecoveryStep, ReembedStep(Asked(), Vectors(1)), RecoveryStep]
  }

  lemma StartsExcludable()
    ensures Excludable(Start()) && NothingLost(Start())
  {
    hide RollbackTarget;
    FirstAdmission();
    assert StoredUnder(Start(), 1, 0, "m2");
  }

  lemma RollbackIsAllowed()
    ensures Allowed(Start(), RollbackStep(First(), true, 5))
  {
  }

  lemma RecoveryRuns()
    ensures AllowedRun(Start(), Recovery()) && Run(Start(), Recovery()) == RolledBackOnce(Reentered())
  {
    hide Start, RolledBackOnce, HandleRollback, ScanAndRecover, Reembed, Left, Scanned, Reembedded, Reentered;
    RollbackIsAllowed();
    FirstRollback();
    Scans();
    Reembeds();
    Reenters();
    var steps := Recovery();
    RunOne(Start(), steps[0]);
    RunExtend(Start(), [steps[0]], steps[1]);
    RunExtend(Start(), [steps[0]] + [steps[1]], steps[2]);
    RunExtend(Start(), [steps[0]] + [steps[1]] + [steps[2]], steps[3]);
    assert steps == [steps[0]] + [steps[1]] + [steps[2]] + [steps[3]];
  }

  /** The first rollback excludes project 0, the scan has its chunk embedded again and serves it again; the second
      rollback leaves it serving, and the index it restores does not hold the chunk. */
  lemma SecondRollbackMissesIt()
    ensures Inv(Start()) && Excludable(Start()) && NothingLost(Start()) && AllowedRun(Start(), Recovery())
    ensures var w := Run(Start(), Recovery());
      var (r, outcome) := HandleRollback(w, Second(), true, 6);
      && AdmissionOf(w, Second()).Start? && outcome == Restored && w.release.Some?
      && !ExclusionComplete(r, w.release.value.activeIndex)
  {
    hide Run, AllowedRun, HandleRollback, AdmissionOf, RollbackTarget, IndexRestorable, Inv, Start, Exposed, Serves;
    hide ExclusionComplete, IsReady, Reentered, NothingLost;
    StartIsSound();
    StartsExcludable();
    RecoveryRuns();
    RunKeepsInv(Start(), Recovery());
    SecondAdmission();
    ChunkIsExposed();
    var w := RolledBackOnce(Reentered());
    SameTarget(w, MarkPreparing(ExcludeProjects(w, w.release.value.activeModel)));
    BegunServes(w, Second(), true, 6);
    RollbackExcludesIff(w, Second(), true, 6);
  }
}
