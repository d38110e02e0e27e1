/** Three runs that every guard lets through and that lose a chunk: an ingest that stores into an index which left
    service meanwhile, an ingest that makes a video ready again over an older chunk nobody reindexed, and a
    re-embedding that a scan asked for before serving switched twice. */
module LostChunks {
  import opened Wrappers
  import opened SnapshotRegistry
  import opened Serving
  import opened ServingInvariant
  import opened Coverage
  import opened TwoCutovers

  ghost predicate Loses(w: World, index: string, c: nat) {
    (index, c) in w.entries && Alive(w, index) && IsReady(w, c) && w.release.Some? && !Covered(w, c)
  }

  /** Chunk 0 of a ready video is in the active index. */
  function Data(): World {
    World(None, [], map[], map["i0" := CatalogRow("m0", 1, false)], map[], map[0 := Video(None, Ready)],
      map[0 := Chunk(0, "s", "m0", None)], map[("i0", 0) := Entry(0, "m0", [])], map[], map[], {})
  }

  /** An ingest of video 0 read its target, and a re-ingest of the video failed. */
  function Failed(): World {
    Data().(jobs := map[0 := IngestJob(0, "i0", "m0")], videos := map[0 := Video(None, Unready)])
  }

  function Start(): World { Initial(Data()) }

  lemma StartIsSound()
    ensures Inv(Start()) && NothingLost(Start())
  {
    hide Inv;
    InitialIsSound(Data());
  }

  lemma Failing()
    ensures Allowed(Start(), LoadTargetStep(0, 0)) && Allowed(Apply(Start(), LoadTargetStep(0, 0)), FailStep(0))
    ensures Apply(Apply(Start(), LoadTargetStep(0, 0)), FailStep(0)) == Initial(Failed())
  {
  }

  /** The gates are open although `i0` is live and holds the only vector of the chunk: its video is not ready. */
  lemma FailedGates()
    ensures !OldOnlyLeft(Failed(), "i0", {"i0", "i1"}) && !OldOnlyLeft(Failed(), "i1", {"i1", "i2"})
    ensures Untouched(Failed(), "i1") && Untouched(Failed(), "i2")
    ensures "i1" !in Failed().catalog && "i2" !in Failed().catalog
  {
    assert forall s, t :: OldOnlyVideos(Failed(), s, t) == {};
  }

  lemma Switched() returns (steps: seq<Step>)
    ensures AllowedRun(Start(), steps) && Run(Start(), steps) == SwitchedTwice(Failed()) && NoRollback(steps)
  {
    hide Run, AllowedRun, Apply, Allowed, Start, Failed, SwitchedTwice, Initial, OldOnlyLeft, Untouched;
    RunNothing(Start());
    Failing();
    FailedGates();
    steps := Next(Start(), [], LoadTargetStep(0, 0));
    steps := Next(Start(), steps, FailStep(0));
    steps := SwitchTwice(Start(), steps, Failed());
  }

  function Inputs(): map<nat, Option<string>> { map[1 := None] }
  function Storing(job: nat): Step { PersistStep(job, "s", Inputs(), Vectors(1)) }

  lemma StoreIsAllowed(w: World, job: nat)
    requires 1 !in w.chunks
    ensures Allowed(w, Storing(job))
  {
    assert Inputs().Keys == {1} == Vectors(1).Keys;
  }

  /** The ingest that read its target before both cutovers now stores into `i0`, and its new chunk is in no
      serving index. */
  lemma LateIngestLosesItsChunk() returns (steps: seq<Step>)
    ensures Inv(Start()) && NothingLost(Start()) && AllowedRun(Start(), steps) && NoRollback(steps)
    ensures Loses(Run(Start(), steps), "i0", 1)
  {
    hide Inv, Run, AllowedRun, Start, NothingLost, Persist, Allowed, SwitchedTwice, Failed, Loses;
    StartIsSound();
    steps := Switched();
    RunKeepsInv(Start(), steps);
    SwitchedFacts();
    StoreIsAllowed(SwitchedTwice(Failed()), 0);
    steps := Next(Start(), steps, Storing(0));
    LateStore();
  }

  lemma SwitchedFacts()
    ensures 1 !in SwitchedTwice(Failed()).chunks
  {
  }

  lemma LateStore()
    requires Inv(SwitchedTwice(Failed()))
    ensures Loses(Persist(SwitchedTwice(Failed()), 0, "s", Inputs(), Vectors(1)), "i0", 1)
  {
    hide Persist, Inv;
    assert Inputs().Keys == {1} == Vectors(1).Keys;
    NewVectors(SwitchedTwice(Failed()), 0, "s", Inputs(), Vectors(1), 1);
  }

  /** A later ingest reads the new target and makes the video ready again; the older chunk is still stored,
      and in no serving index. */
  lemma ReingestLosesOlderChunk() returns (steps: seq<Step>)
    ensures Inv(Start()) && NothingLost(Start()) && AllowedRun(Start(), steps) && NoRollback(steps)
    ensures Loses(Run(Start(), steps), "i0", 0)
  {
    hide Inv, Run, AllowedRun, Start, NothingLost, Persist, Allowed, SwitchedTwice, Failed, Loses;
    StartIsSound();
    steps := Switched();
    LoadIsAllowed(SwitchedTwice(Failed()));
    steps := Next(Start(), steps, LoadTargetStep(1, 0));
    RunKeepsInv(Start(), steps);
    SwitchedFacts();
    StoreIsAllowed(LoadTarget(SwitchedTwice(Failed()), 1, 0), 1);
    steps := Next(Start(), steps, Storing(1));
    NewStore();
  }

  lemma LoadIsAllowed(w: World)
    ensures Allowed(w, LoadTargetStep(1, 0))
  {
  }

  lemma NewStore()
    requires Inv(LoadTarget(SwitchedTwice(Failed()), 1, 0))
    ensures Loses(Persist(LoadTarget(SwitchedTwice(Failed()), 1, 0), 1, "s", Inputs(), Vectors(1)), "i0", 0)
  {
    hide Persist, Inv;
    assert Inputs().Keys == {1} == Vectors(1).Keys;
    OldVectors(LoadTarget(SwitchedTwice(Failed()), 1, 0), 1, "s", Inputs(), Vectors(1), 0);
  }

  // ---- a re-embedding ----

  /** A project is excluded, and the only vector of its chunk is in an index that no longer exists. */
  function ExcludedData(): World {
    World(None, [], map[], map["i0" := CatalogRow("m0", 1, false)], map[0 := RollbackExcluded],
      map[0 := Video(Some(0), Ready)], map[0 := Chunk(0, "s", "bad", None)],
      map[("bad index", 0) := Entry(0, "bad", [])], map[], map[], {})
  }

  function Asked(): Reembedding { Reembedding(0, "m0", "i0") }
  function Scanned(): World { ExcludedData().(requests := {Asked()}) }
  function ExcludedStart(): World { Initial(ExcludedData()) }

  lemma ExcludedStartIsSound()
    ensures Inv(ExcludedStart()) && NothingLost(ExcludedStart())
  {
    hide Inv;
    InitialIsSound(ExcludedData());
  }

  lemma ScanAsks()
    ensures Allowed(ExcludedStart(), RecoveryStep) && Apply(ExcludedStart(), RecoveryStep) == Initial(Scanned())
  {
    var w := ExcludedStart();
    assert ExcludedProjects(w) == {0};
    NotRestored(w);
    assert DispatchSet(w, "m0", "i0") == {0};
    var asked := Dispatch(w, "m0", "i0");
    assert asked.requests == {Asked()};
    NotRestored(asked);
    assert Reenter(asked, "m0", "i0").projects == asked.projects;
  }

  lemma NotRestored(w: World)
    requires w.videos == ExcludedData().videos && w.chunks == ExcludedData().chunks && ("i0", 0) !in w.entries
    ensures !VideoRestored(w, 0, "m0", "i0") && !ProjectRestored(w, 0, "m0", "i0")
  {
    assert 0 in ChunksOf(w, 0) && 0 in ReadyVideos(w, 0);
  }

  lemma ScannedGates()
    ensures !OldOnlyLeft(Scanned(), "i0", {"i0", "i1"}) && !OldOnlyLeft(Scanned(), "i1", {"i1", "i2"})
    ensures Untouched(Scanned(), "i1") && Untouched(Scanned(), "i2")
    ensures "i1" !in Scanned().catalog && "i2" !in Scanned().catalog
  {
    assert forall t :: OldOnlyVideos(Scanned(), "i0", t) == {};
    assert forall s, excluded :: s in SourceIndexes(Scanned(), excluded) ==> s == "i0";
  }

  lemma LateReembedding()
    ensures var w := SwitchedTwice(Scanned());
      Allowed(w, ReembedStep(Asked(), Vectors(0))) && Loses(Reembed(w, Asked(), Vectors(0)), "i0", 0)
  {
    hide AddEntries;
    assert Vectors(0).Keys == {0} <= ChunksOf(SwitchedTwice(Scanned()), 0);
  }

  /** The re-embedding writes its vector into `i0`, which is no longer in use: the chunk was in no live index
      before, and is in one that does not serve now. */
  lemma LateReembeddingLosesChunk() returns (steps: seq<Step>)
    ensures Inv(ExcludedStart()) && NothingLost(ExcludedStart()) && AllowedRun(ExcludedStart(), steps)
      && NoRollback(steps)
    ensures Loses(Run(ExcludedStart(), steps), "i0", 0)
  {
    hide Inv, Run, AllowedRun, Apply, Allowed, NothingLost, Loses, ExcludedStart, Scanned, SwitchedTwice, Initial;
    hide OldOnlyLeft, Untouched;
    ExcludedStartIsSound();
    RunNothing(ExcludedStart());
    ScanAsks();
    ScannedGates();
    LateReembedding();
    steps := Next(ExcludedStart(), [], RecoveryStep);
    steps := SwitchTwice(ExcludedStart(), steps, Scanned());
    steps := Next(ExcludedStart(), steps, ReembedStep(Asked(), Vectors(0)));
    Reembeds(SwitchedTwice(Scanned()), Asked(), Vectors(0));
  }

  lemma Reembeds(w: World, q: Reembedding, vectors: map<nat, Vector>)
    ensures Apply(w, ReembedStep(q, vectors)) == Reembed(w, q, vectors)
  {
  }
}
