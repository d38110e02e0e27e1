/** A run that every guard lets through and after which a rollback leaves a project serving although a chunk of it
    is missing: an ingest stored into an index that left service, and the reindex worker then copied its chunk into
    the index that the rollback abandons. */
module MissedProject {
  import opened Wrappers
  import opened SnapshotRegistry
  import opened Serving
  import opened ServingInvariant
  import opened Coverage
  import opened Exclusion
  import opened TwoCutovers

  /** A serving project with a video that has no chunks yet. */
  function Data(): World {
    World(None, [], map[], map["i0" := CatalogRow("m0", 1, false)], map[0 := Servable],
      map[0 := Video(Some(0), Unready)], map[], map[], map[], map[], {})
  }

  function Start(): World { Initial(Data()) }

  /** An ingest of the video read its target. */
  function Loaded(): World { Data().(jobs := map[0 := IngestJob(0, "i0", "m0")]) }

  /** After the first switch, a second ingest stored chunk 2, and the new index is in the catalog. */
  function Stored(): World {
    Loaded().(
      videos := map[0 := Video(Some(0), Ready)], chunks := map[2 := Chunk(0, "s", "m1", None)],
      entries := map[("i1", 2) := Entry(0, "m1", [])],
      catalog := map["i0" := CatalogRow("m0", 1, false), "i1" := CatalogRow("m1", 1, false)])
  }

  /** After the second switch the first ingest stored chunk 1, and it was reindexed. */
  function Reindexed(): World {
    Stored().(
      jobs := map[],
      chunks := map[1 := Chunk(0, "s", "m0", None), 2 := Chunk(0, "s", "m1", None)],
      entries := map[("i0", 1) := Entry(0, "m0", []), ("i1", 2) := Entry(0, "m1", []), ("i2", 1) := Entry(0, "m2", [])],
      items := map[Key() := Item(Succeeded, "m2")])
  }

  function Key(): ItemKey { ItemKey(0, "i0", "i2") }
  function Inputs(c: nat): map<nat, Option<string>> { map[c := None] }
  function Request(): RollbackRequest { RollbackRequest("v1", "m2", Utc(4)) }

  lemma StartIsSound()
    ensures Inv(Start())
  {
    hide Inv;
    InitialIsSound(Data());
  }

  lemma Loads()
    ensures Allowed(Start(), LoadTargetStep(0, 0)) && Apply(Start(), LoadTargetStep(0, 0)) == Initial(Loaded())
  {
  }

  lemma NoGate(d: World, target: string, excluded: set<string>)
    requires forall s <- SourceIndexes(d, excluded), p <- d.entries.Keys :: p.0 != s
    ensures !OldOnlyLeft(d, target, excluded)
  {
  }

  lemma LoadedGate()
    ensures "i1" !in Loaded().catalog && Untouched(Loaded(), "i1") && !OldOnlyLeft(Loaded(), "i0", {"i0", "i1"})
  {
    NoGate(Loaded(), "i0", {"i0", "i1"});
  }

  lemma StoredGate()
    ensures "i2" !in Stored().catalog && Untouched(Stored(), "i2") && !OldOnlyLeft(Stored(), "i1", {"i1", "i2"})
  {
    NoGate(Stored(), "i1", {"i1", "i2"});
  }

  /** What an ingest stores when the video has no chunks of the same versions. */
  lemma StoresBeside(w: World, job: nat, c: nat)
    requires Stores(w, job, Inputs(c)) && c !in w.chunks
    requires SameVersionChunks(w, w.jobs[job].video, "s", w.jobs[job].model) == {}
    ensures var j, x := w.jobs[job], Persist(w, job, "s", Inputs(c), Vectors(c));
      && Allowed(w, PersistStep(job, "s", Inputs(c), Vectors(c)))
      && x == w.(jobs := w.jobs - {job}, videos := w.videos[j.video := w.videos[j.video].(status := Ready)],
                 chunks := w.chunks[c := Chunk(j.video, "s", j.model, None)],
                 entries := w.entries[(j.index, c) := Entry(j.video, j.model, [])])
  {
    hide SameVersionChunks;
    assert Inputs(c).Keys == {c} == Vectors(c).Keys;
    KeepsAll(w.chunks, w.entries, w.jobs[job], c);
  }

  lemma KeepsAll(chunks: map<nat, Chunk>, entries: map<(string, nat), Entry>, j: IngestJob, c: nat)
    requires c !in chunks
    ensures ReplaceChunks(chunks, {}, j.video, "s", j.model, Inputs(c))
      == chunks[c := Chunk(j.video, "s", j.model, None)]
    ensures AddEntries(WithoutChunks(entries, {}), j.index, j.video, j.model, Vectors(c))
      == entries[(j.index, c) := Entry(j.video, j.model, [])]
  {
    hide ReplaceChunks, AddEntries, WithoutChunks;
    assert WithoutChunks(entries, {}) == entries;
    AddsOne(entries, j.index, j.video, j.model, c);
  }

  /** From the first switch to the data of the second. */
  function Middle(): seq<Step> {
    [LoadTargetStep(1, 0), PersistStep(1, "s", Inputs(2), Vectors(2)), CatalogStep(1)]
  }

  lemma SecondLoad()
    ensures var w := LoadTarget(SwitchedOnce(Loaded()), 1, 0);
      && w == SwitchedOnce(Loaded()).(jobs := map[0 := IngestJob(0, "i0", "m0"), 1 := IngestJob(0, "i1", "m1")])
      && Stores(w, 1, Inputs(2)) && SameVersionChunks(w, 0, "s", "m1") == {} && 2 !in w.chunks
  {
    assert 2 in Inputs(2);
  }

  lemma SecondStore()
    ensures var w, step := LoadTarget(SwitchedOnce(Loaded()), 1, 0), Middle()[1];
      Allowed(w, step) && Apply(w, step) == SwitchedOnce(Stored().(catalog := Data().catalog))
  {
    hide LoadTarget, Persist, SameVersionChunks, Stores;
    var w := LoadTarget(SwitchedOnce(Loaded()), 1, 0);
    SecondLoad();
    StoresBeside(w, 1, 2);
    assert w.jobs - {1} == map[0 := IngestJob(0, "i0", "m0")];
  }

  lemma MiddleRuns()
    ensures var w := SwitchedOnce(Loaded());
      AllowedRun(w, Middle()) && Run(w, Middle()) == SwitchedOnce(Stored())
  {
    hide Persist, LoadTarget, CatalogRelease, SwitchedOnce, Stored;
    var w := SwitchedOnce(Loaded());
    SecondStore();
    Catalogs();
    RunOne(w, Middle()[0]);
    RunExtend(w, [Middle()[0]], Middle()[1]);
    RunExtend(w, [Middle()[0]] + [Middle()[1]], Middle()[2]);
    assert Middle() == [Middle()[0]] + [Middle()[1]] + [Middle()[2]];
  }

  lemma Catalogs()
    ensures CatalogRelease(SwitchedOnce(Stored().(catalog := Data().catalog)), 1) == SwitchedOnce(Stored())
  {
  }

  /** From the second switch to the rollback. */
  function Last(): seq<Step> {
    [PersistStep(0, "s", Inputs(1), Vectors(1)), EnqueueStep(0, "i0"), ReindexStep(Key(), Vectors(1), Succeeded)]
  }

  lemma LateStore()
    ensures var w := SwitchedTwice(Stored());
      Stores(w, 0, Inputs(1)) && SameVersionChunks(w, 0, "s", "m0") == {} && 1 !in w.chunks
  {
    assert 1 in Inputs(1);
  }

  function Late(): World {
    SwitchedTwice(Reindexed()).(items := map[], entries := Reindexed().entries - {("i2", 1)})
  }

  lemma LateStored()
    ensures Allowed(SwitchedTwice(Stored()), Last()[0]) && Apply(SwitchedTwice(Stored()), Last()[0]) == Late()
  {
    hide Persist, SameVersionChunks, Stores;
    var w := SwitchedTwice(Stored());
    LateStore();
    StoresBeside(w, 0, 1);
    LateTables();
  }

  lemma LateTables()
    ensures Stored().jobs - {0} == map[]
    ensures Reindexed().entries - {("i2", 1)} == Stored().entries[("i0", 1) := Entry(0, "m0", [])]
    ensures Late().entries[("i2", 1) := Entry(0, "m2", [])] == Reindexed().entries
  {
  }

  lemma Queues()
    ensures EnqueueItem(Late(), 0, "i0") == Late().(items := map[Key() := Item(Pending, "m2")])
  {
    assert ("i0", 1) in Late().entries;
    assert 0 in OldOnlyVideos(Late(), "i0", "i2");
  }

  lemma Copies()
    ensures var w := Late().(items := map[Key() := Item(Pending, "m2")]);
      && Allowed(w, ReindexStep(Key(), Vectors(1), Succeeded))
      && ReindexItem(w, Key(), Vectors(1), Succeeded) == SwitchedTwice(Reindexed())
  {
    hide AddEntries, Late, Reindexed;
    LateFacts();
    LateTables();
    AddsOne(Late().entries, "i2", 0, "m2", 1);
  }

  lemma LateFacts()
    ensures 1 in SourceChunks(Late(), 0, "i0")
    ensures Late().(items := Reindexed().items, entries := Reindexed().entries) == SwitchedTwice(Reindexed())
    ensures map[Key() := Item(Pending, "m2")][Key() := Item(Succeeded, "m2")] == Reindexed().items
  {
  }

  lemma LastRuns()
    ensures var w := SwitchedTwice(Stored());
      AllowedRun(w, Last()) && Run(w, Last()) == SwitchedTwice(Reindexed())
  {
    hide Persist, EnqueueItem, ReindexItem, Late, Stored, Reindexed, SwitchedTwice;
    var w := SwitchedTwice(Stored());
    LateStored();
    Queues();
    Copies();
    RunOne(w, Last()[0]);
    RunExtend(w, [Last()[0]], Last()[1]);
    RunExtend(w, [Last()[0]] + [Last()[1]], Last()[2]);
    assert Last() == [Last()[0]] + [Last()[1]] + [Last()[2]];
  }

  lemma Whole() returns (steps: seq<Step>)
    ensures AllowedRun(Start(), steps) && Run(Start(), steps) == SwitchedTwice(Reindexed()) && NoRollback(steps)
  {
    hide Run, AllowedRun, Apply, Allowed, Start, Initial, Loaded, Stored, Reindexed, SwitchedOnce, SwitchedTwice;
    hide OldOnlyLeft, Untouched;
    RunNothing(Start());
    Loads();
    LoadedGate();
    StoredGate();
    MiddleRuns();
    LastRuns();
    steps := Next(Start(), [], LoadTargetStep(0, 0));
    steps := SwitchFirst(Start(), steps, Loaded());
    RunConcat(Start(), steps, Middle());
    steps := SwitchSecond(Start(), steps + Middle(), Stored());
    RunConcat(Start(), steps, Last());
    steps := steps + Last();
  }

  lemma Admits()
    ensures var w := SwitchedTwice(Reindexed());
      && AdmissionOf(w, Request()).Start? && RollbackTarget(w) == Some(("m1", "i1")) && IndexRestorable(w, "i1")
  {
    FindUnique(SwitchedTwice(Reindexed()).snapshots, PreviousStable, 1);
    assert ("i1", 2) in SwitchedTwice(Reindexed()).entries;
  }

  lemma ChunkIsExposed()
    ensures var w := SwitchedTwice(Reindexed());
      && ("i2", 1) in w.entries && ("i1", 1) !in w.entries && Serves(w, "i2") && IsReady(w, 1) && Exposed(w, 1)
  {
  }

  /** The rollback starts and restores at once, every step was allowed from a sound start on, and chunk 1 of the
      project, which still serves, is in the index left behind and not in the one restored. */
  lemma RollbackMissesAProject() returns (steps: seq<Step>)
    ensures Inv(Start()) && AllowedRun(Start(), steps) && NoRollback(steps)
    ensures var w := Run(Start(), steps);
      var (r, outcome) := HandleRollback(w, Request(), true, 5);
      && AdmissionOf(w, Request()).Start? && outcome == Restored && w.release.Some?
      && !ExclusionComplete(r, w.release.value.activeIndex)
  {
    hide Run, AllowedRun, HandleRollback, AdmissionOf, RollbackTarget, IndexRestorable, Inv, Start, Exposed, Serves;
    hide ExclusionComplete, IsReady, Reindexed;
    StartIsSound();
    steps := Whole();
    RunKeepsInv(Start(), steps);
    Admits();
    ChunkIsExposed();
    var w := SwitchedTwice(Reindexed());
    SameTarget(w, MarkPreparing(ExcludeProjects(w, w.release.value.activeModel)));
    BegunServes(w, Request(), true, 5);
    RollbackExcludesIff(w, Request(), true, 5);
  }
}
