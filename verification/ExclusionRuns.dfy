/** Which steps keep the next rollback able to exclude every project it has to, exactly. */
module ExclusionRuns {
  import opened Wrappers
  import opened SnapshotRegistry
  import opened Serving
  import opened ServingInvariant
  import opened Coverage
  import opened Exclusion

  /** Ready, in service and not in `index`. */
  ghost predicate Uncopied(w: World, index: string, c: nat)
    requires w.release.Some?
  {
    IsReady(w, c) && (index, c) !in w.entries && exists i :: Serves(w, i) && (i, c) in w.entries
  }

  lemma UncopiedIsReady(w: World, index: string, c: nat)
    requires w.release.Some?
    ensures Uncopied(w, index, c) ==> IsReady(w, c)
  {
  }

  lemma ExcludableToIff(w: World, index: string)
    requires w.release.Some?
    ensures ExcludableTo(w, index) <==> forall c :: Uncopied(w, index, c) ==> !Exposed(w, c)
  {
    hide Serves, Exposed, IsReady;
    if ExcludableTo(w, index) {
      forall c: nat | Uncopied(w, index, c) ensures !Exposed(w, c) {
        var i :| Serves(w, i) && (i, c) in w.entries;
        assert Serves(w, (i, c).0);
      }
    } else {
      var p: (string, nat) :| p in w.entries && Serves(w, p.0) && IsReady(w, p.1) && Exposed(w, p.1)
        && (index, p.1) !in w.entries;
      assert p == (p.0, p.1) && Uncopied(w, index, p.1);
    }
  }

  /** The project serves, and the active model stored nothing for it but chunks of video `v`. */
  ghost predicate StaysServableWithout(w: World, p: nat, v: nat)
    requires w.release.Some?
  {
    p in w.projects && w.projects[p] == Servable
    && forall c :: StoredUnder(w, c, p, w.release.value.activeModel) ==> w.chunks[c].video == v
  }

  ghost predicate ExposedWithout(w: World, c: nat, v: nat)
    requires w.release.Some?
  {
    && c in w.chunks && w.chunks[c].video in w.videos && w.videos[w.chunks[c].video].project.Some?
    && StaysServableWithout(w, w.videos[w.chunks[c].video].project.value, v)
  }

  /** The next scan serves the project again, and the active model stored nothing for it. */
  ghost predicate ReentersExposed(w: World, p: nat)
    requires w.release.Some?
  {
    var r := w.release.value;
    && p in w.projects && w.projects[p] == RollbackExcluded && ProjectRestored(w, p, r.activeModel, r.activeIndex)
    && forall c :: !StoredUnder(w, c, p, r.activeModel)
  }

  /** The chunk is ready and belongs to such a project. */
  ghost predicate Returns(w: World, c: nat)
    requires w.release.Some?
  {
    && w.release.value.status == Stable && IsReady(w, c) && w.videos[w.chunks[c].video].project.Some?
    && ReentersExposed(w, w.videos[w.chunks[c].video].project.value)
  }

  /** A project that a rollback would leave serving gets new chunks that the active model did not store. */
  ghost predicate StoresExposed(w: World, job: nat, inputs: map<nat, Option<string>>)
    requires w.release.Some?
  {
    Stores(w, job, inputs) &&
      var j := w.jobs[job];
      && j.model != w.release.value.activeModel
      && w.videos[j.video].project.Some? && StaysServable(w, w.videos[j.video].project.value)
  }

  /** What a step has to meet, where `index` is the one that a rollback would restore. For a project that a rollback
      would leave serving, an ingest must not store into another serving index, nor make a video ready over older
      chunks missing from `index`, and a re-embedding must not write ready chunks that are missing there into
      another serving index. A purge must not take the only chunks for which a project with such chunks would be
      excluded, and a scan must not serve one again. */
  ghost predicate SparesFrom(w: World, step: Step, index: string)
    requires w.release.Some?
  {
    match step
    case PersistStep(job, stt, inputs, vectors) =>
      StoresExposed(w, job, inputs) ==>
        var j := w.jobs[job];
        && (Serves(w, j.index) ==> j.index == index)
        && (w.videos[j.video].status == Ready || LeftoversCopied(w, index, j.video, stt, j.model))
    case ReembedStep(q, vectors) =>
      q.video in w.videos && Serves(w, q.index) && q.index != index ==>
        forall c <- vectors.Keys :: IsReady(w, c) && Exposed(w, c) ==> (index, c) in w.entries
    case PurgeStep(v) => forall c :: Uncopied(w, index, c) && w.chunks[c].video != v ==> !ExposedWithout(w, c, v)
    case RecoveryStep => forall c :: Uncopied(w, index, c) ==> !Returns(w, c)
    case _ => true
  }

  ghost predicate LeftoversCopied(w: World, index: string, v: nat, stt: string, model: string)
    requires w.release.Some?
  {
    forall p <- w.entries.Keys :: p.1 in Leftovers(w, v, stt, model) && Serves(w, p.0) ==> (index, p.1) in w.entries
  }

  // ---- steps that leave chunks, projects and their videos' projects alone ----

  lemma SameExposed(w: World, r: World)
    requires w.release.Some? && r.release.Some? && r.release.value.activeModel == w.release.value.activeModel
    requires r == w.(release := r.release, runs := r.runs, catalog := r.catalog, entries := r.entries, items := r.items,
      jobs := r.jobs)
    ensures forall c :: Exposed(r, c) == Exposed(w, c)
  {
    assert forall c, p, m :: StoredUnder(r, c, p, m) == StoredUnder(w, c, p, m);
  }

  lemma QuietKeeps(w: World, r: World, index: string)
    requires w.release.Some? && r == w.(requests := r.requests, jobs := r.jobs, items := r.items, runs := r.runs)
    ensures ExcludableTo(r, index) == ExcludableTo(w, index)
  {
    hide Exposed;
    assert forall c, p, m :: StoredUnder(r, c, p, m) == StoredUnder(w, c, p, m);
    assert forall p :: StaysServable(r, p) == StaysServable(w, p);
    forall c ensures Exposed(r, c) == Exposed(w, c) { OneExposed(w, r, c); }
  }

  lemma OneExposed(w: World, r: World, c: nat)
    requires w.release.Some? && r.release.Some? && r.chunks == w.chunks && r.videos == w.videos
    requires forall p :: StaysServable(r, p) == StaysServable(w, p)
    ensures Exposed(r, c) == Exposed(w, c)
  {
    hide StaysServable;
  }

  lemma OpenKeeps(w: World, runId: nat, now: int, index: string)
    requires Inv(w) && ExcludableTo(w, index)
    ensures Open(w, runId, now).release.Some? && ExcludableTo(Open(w, runId, now), index)
  {
    hide ReleaseIsTop, PreviousIsBelow, CandidateApart, DataLinked, CandidateIndexFor, Exposed;
    OpenKeepsPairs(w, runId, now);
    SameExposed(w, Open(w, runId, now));
  }

  lemma ReindexKeeps(w: World, key: ItemKey, vectors: map<nat, Vector>, status: ItemStatus, index: string)
    requires Inv(w) && ExcludableTo(w, index) && Allowed(w, ReindexStep(key, vectors, status))
    ensures ExcludableTo(ReindexItem(w, key, vectors, status), index)
  {
    hide ReleaseIsTop, PreviousIsBelow, CandidateFields, AddEntries, Exposed;
    var r := ReindexItem(w, key, vectors, status);
    SameExposed(w, r);
    forall p <- r.entries.Keys | p !in w.entries && Serves(r, p.0) && IsReady(r, p.1) && Exposed(r, p.1)
      ensures (index, p.1) in r.entries
    {
      assert (key.source, p.1) in w.entries;
    }
  }

  lemma CatalogKeeps(w: World, dimension: nat, index: string)
    requires Inv(w) && ExcludableTo(w, index)
    requires w.release.value.previousIndex.Some? ==> w.release.value.previousIndex.value == index
    ensures ExcludableTo(CatalogRelease(w, dimension), index)
  {
    hide ReleaseIsTop, PreviousIsBelow, CandidateFields, CandidateApart, DataLinked, Exposed;
    SameExposed(w, CatalogRelease(w, dimension));
  }

  lemma ReembedKeepsIff(w: World, q: Reembedding, vectors: map<nat, Vector>, index: string)
    requires Inv(w) && ExcludableTo(w, index) && Allowed(w, ReembedStep(q, vectors))
    ensures ExcludableTo(Reembed(w, q, vectors), index) <==> SparesFrom(w, ReembedStep(q, vectors), index)
  {
    hide ReleaseIsTop, PreviousIsBelow, CandidateFields, CandidateApart, AddEntries, DataLinked, Exposed;
    var x := Reembed(w, q, vectors);
    SameExposed(w, x);
    if ExcludableTo(x, index) && q.video in w.videos && Serves(w, q.index) && q.index != index {
      forall c <- vectors.Keys | IsReady(w, c) && Exposed(w, c) ensures (index, c) in w.entries {
        assert (q.index, c) in x.entries;
      }
    }
  }

  // ---- videos coming and going ----

  /** Videos that fail, are deleted or are added, or chunks that go: the chunks in service are fewer. */
  lemma VideoKeeps(w: World, step: Step, index: string)
    requires Inv(w) && ExcludableTo(w, index) && Allowed(w, step)
    requires step.FailStep? || step.DeleteStep? || step.UploadStep?
    ensures ExcludableTo(Apply(w, step), index)
  {
    hide ReleaseIsTop, PreviousIsBelow, CandidateFields, CandidateApart, Exposed;
    var x := Apply(w, step);
    forall p <- x.entries.Keys | Serves(x, p.0) && IsReady(x, p.1) && Exposed(x, p.1)
      ensures (index, p.1) in x.entries
    {
      VideoExposes(w, step, p.1);
    }
  }

  lemma VideoExposes(w: World, step: Step, c: nat)
    requires w.release.Some? && Allowed(w, step) && (step.FailStep? || step.DeleteStep? || step.UploadStep?)
    requires Exposed(Apply(w, step), c) && IsReady(Apply(w, step), c)
    ensures Exposed(w, c) && IsReady(w, c)
  {
    hide StaysServable, StoredUnder;
    var p := Apply(w, step).videos[w.chunks[c].video].project.value;
    VideoStaysServable(w, step, p);
  }

  lemma VideoStaysServable(w: World, step: Step, p: nat)
    requires w.release.Some? && Allowed(w, step) && (step.FailStep? || step.DeleteStep? || step.UploadStep?)
    requires StaysServable(Apply(w, step), p)
    ensures StaysServable(w, p)
  {
    var m := w.release.value.activeModel;
    forall d | StoredUnder(w, d, p, m) ensures StoredUnder(Apply(w, step), d, p, m) {}
  }

  lemma PurgeKeepsIff(w: World, v: nat, index: string)
    requires Inv(w) && ExcludableTo(w, index)
    ensures ExcludableTo(PurgeVideo(w, v), index) <==> SparesFrom(w, PurgeStep(v), index)
  {
    hide ReleaseIsTop, PreviousIsBelow, CandidateFields, CandidateApart, PurgeVideo, Exposed, ExposedWithout, Uncopied;
    var x := PurgeVideo(w, v);
    ExcludableToIff(w, index);
    ExcludableToIff(x, index);
    forall c: nat
      ensures Uncopied(w, index, c) ==> c in w.chunks
      ensures Uncopied(x, index, c) <==> Uncopied(w, index, c) && w.chunks[c].video != v
      ensures Uncopied(x, index, c) ==> (Exposed(x, c) <==> ExposedWithout(w, c, v))
    {
      UncopiedIsReady(w, index, c);
      PurgedChunk(w, v, index, c);
    }
  }

  lemma PurgedChunk(w: World, v: nat, index: string, c: nat)
    requires Inv(w)
    ensures var x := PurgeVideo(w, v);
      && (Uncopied(x, index, c) <==> Uncopied(w, index, c) && w.chunks[c].video != v)
      && (Uncopied(x, index, c) ==> (Exposed(x, c) <==> ExposedWithout(w, c, v)))
  {
    hide ReleaseIsTop, PreviousIsBelow, CandidateFields, CandidateApart, StaysServable, StaysServableWithout;
    if c in w.chunks && w.chunks[c].video in w.videos && w.videos[w.chunks[c].video].project.Some? {
      PurgedProject(w, v, w.videos[w.chunks[c].video].project.value);
    }
  }

  lemma PurgedProject(w: World, v: nat, p: nat)
    requires w.release.Some?
    ensures StaysServable(PurgeVideo(w, v), p) <==> StaysServableWithout(w, p, v)
  {
    var m := w.release.value.activeModel;
    assert forall c :: StoredUnder(PurgeVideo(w, v), c, p, m) <==> StoredUnder(w, c, p, m) && w.chunks[c].video != v;
  }

  // ---- the recovery scan ----

  lemma RecoveryKeepsIff(w: World, index: string)
    requires w.release.Some? && ExcludableTo(w, index)
    ensures ExcludableTo(ScanAndRecover(w), index) <==> SparesFrom(w, RecoveryStep, index)
  {
    hide ScanAndRecover, Exposed, Returns, Uncopied;
    var x := ScanAndRecover(w);
    ExcludableToIff(w, index);
    ExcludableToIff(x, index);
    forall c: nat
      ensures Uncopied(x, index, c) == Uncopied(w, index, c)
      ensures Uncopied(x, index, c) ==> (Exposed(x, c) <==> Exposed(w, c) || Returns(w, c))
    {
      UncopiedIsReady(w, index, c);
      SameUncopied(w, x, index, c);
      if Uncopied(w, index, c) { ScannedChunk(w, c); }
    }
  }

  lemma SameUncopied(w: World, r: World, index: string, c: nat)
    requires w.release.Some? && r == w.(requests := r.requests, projects := r.projects)
    ensures Uncopied(r, index, c) == Uncopied(w, index, c)
  {
    assert forall i :: Serves(r, i) == Serves(w, i);
  }

  lemma ScannedChunk(w: World, c: nat)
    requires w.release.Some? && IsReady(w, c)
    ensures Exposed(ScanAndRecover(w), c) <==> Exposed(w, c) || Returns(w, c)
  {
    hide ScanAndRecover, StaysServable, ReentersExposed;
    if w.videos[w.chunks[c].video].project.Some? {
      ScannedProject(w, w.videos[w.chunks[c].video].project.value);
    }
  }

  lemma ScannedProject(w: World, p: nat)
    requires w.release.Some?
    ensures StaysServable(ScanAndRecover(w), p)
      <==> StaysServable(w, p) || (w.release.value.status == Stable && ReentersExposed(w, p))
  {
    hide ProjectRestored, ScanAndRecover, StoredUnder;
    var m := w.release.value.activeModel;
    ScannedState(w, p);
    forall c ensures StoredUnder(ScanAndRecover(w), c, p, m) == StoredUnder(w, c, p, m) {
      SameStored(w, ScanAndRecover(w), c, p, m);
    }
  }

  lemma SameStored(w: World, r: World, c: nat, p: nat, m: string)
    requires r == w.(requests := r.requests, projects := r.projects)
    ensures StoredUnder(r, c, p, m) == StoredUnder(w, c, p, m)
  {
  }

  lemma ScannedState(w: World, p: nat)
    requires w.release.Some?
    ensures var r, x := w.release.value, ScanAndRecover(w);
      && (p in x.projects <==> p in w.projects)
      && (p in w.projects ==>
           (x.projects[p] == Servable <==>
             || w.projects[p] == Servable
             || (r.status == Stable && ProjectRestored(w, p, r.activeModel, r.activeIndex))))
  {
    hide Dispatch, Reenter, ProjectRestored;
    var r := w.release.value;
    assert p in w.projects && w.projects[p] == RollbackExcluded ==> p in ExcludedProjects(w);
    SameRestored(w, Dispatch(w, r.activeModel, r.activeIndex), p);
    ReenteredState(Dispatch(w, r.activeModel, r.activeIndex), r.activeModel, r.activeIndex, p);
  }

  lemma ReenteredState(w: World, model: string, index: string, p: nat)
    ensures var x := Reenter(w, model, index);
      && (p in x.projects <==> p in w.projects)
      && (p in w.projects ==>
           (x.projects[p] == Servable <==> w.projects[p] == Servable || ProjectRestored(w, p, model, index)))
  {
    hide ProjectRestored;
  }

  lemma SameRestored(w: World, r: World, p: nat)
    requires r == w.(requests := r.requests)
    ensures forall m, i :: ProjectRestored(r, p, m, i) == ProjectRestored(w, p, m, i)
  {
  }

  // ---- ingests ----

  /** An ingest stores something under the active model for its project exactly when the job is aimed at it. */
  lemma StoredProject(
    w: World, job: nat, stt: string, inputs: map<nat, Option<string>>, vectors: map<nat, Vector>, p: nat)
    requires Inv(w) && Stores(w, job, inputs) && forall c <- inputs.Keys :: c !in w.chunks
    ensures var j, m := w.jobs[job], w.release.value.activeModel;
      StaysServable(Persist(w, job, stt, inputs, vectors), p)
      <==> StaysServable(w, p) && !(j.model == m && w.videos[j.video].project == Some(p))
  {
    hide ReleaseIsTop, PreviousIsBelow, CandidateFields, CandidateApart, DataLinked, AddEntries, WithoutChunks, Persist;
    hide ReplaceChunks, SameVersionChunks, StoredUnder;
    var x, j, m := Persist(w, job, stt, inputs, vectors), w.jobs[job], w.release.value.activeModel;
    var aimed := j.model == m && w.videos[j.video].project == Some(p);
    forall c: nat
      ensures !aimed ==> (StoredUnder(x, c, p, m) <==> StoredUnder(w, c, p, m))
      ensures c in inputs && aimed ==> StoredUnder(x, c, p, m)
    {
      StoredChunk(w, job, stt, inputs, vectors, c, p, m);
    }
    var c :| c in inputs.Keys;
  }

  lemma StoredChunk(
    w: World, job: nat, stt: string, inputs: map<nat, Option<string>>, vectors: map<nat, Vector>, c: nat, p: nat,
    m: string)
    requires Inv(w) && Stores(w, job, inputs) && forall c <- inputs.Keys :: c !in w.chunks
    ensures var x, j := Persist(w, job, stt, inputs, vectors), w.jobs[job];
      StoredUnder(x, c, p, m) <==>
        if c in inputs then j.model == m && w.videos[j.video].project == Some(p)
        else StoredUnder(w, c, p, m) && c !in SameVersionChunks(w, j.video, stt, j.model)
    ensures var j := w.jobs[job];
      StoredUnder(w, c, p, m) ==> (
        && c !in inputs
        && (c in SameVersionChunks(w, j.video, stt, j.model) ==> j.model == m && w.videos[j.video].project == Some(p)))
  {
    hide ReleaseIsTop, PreviousIsBelow, CandidateFields, CandidateApart, DataLinked, AddEntries, WithoutChunks;
    hide ReplaceChunks;
  }

  /** Which stored chunks a rollback would leave serving after the ingest. */
  lemma StoredExposed(
    w: World, job: nat, stt: string, inputs: map<nat, Option<string>>, vectors: map<nat, Vector>, c: nat)
    requires Inv(w) && Stores(w, job, inputs) && forall c <- inputs.Keys :: c !in w.chunks
    requires c in Persist(w, job, stt, inputs, vectors).chunks
    ensures var x, j := Persist(w, job, stt, inputs, vectors), w.jobs[job];
      && (c in inputs || (c in w.chunks && w.chunks[c].video == j.video) ==>
           (Exposed(x, c) <==> StoresExposed(w, job, inputs)))
      && (c !in inputs ==> c in w.chunks && (Exposed(x, c) ==> Exposed(w, c)))
  {
    hide ReleaseIsTop, PreviousIsBelow, CandidateFields, CandidateApart, DataLinked, AddEntries, WithoutChunks;
    hide ReplaceChunks, SameVersionChunks, StaysServable;
    var x := Persist(w, job, stt, inputs, vectors);
    var v := x.chunks[c].video;
    if v in w.videos && w.videos[v].project.Some? {
      StoredProject(w, job, stt, inputs, vectors, w.videos[v].project.value);
    }
  }

  lemma SparedPersistKeeps(
    w: World, job: nat, stt: string, inputs: map<nat, Option<string>>, vectors: map<nat, Vector>, index: string)
    requires Inv(w) && ExcludableTo(w, index) && Stores(w, job, inputs)
    requires Allowed(w, PersistStep(job, stt, inputs, vectors))
    requires SparesFrom(w, PersistStep(job, stt, inputs, vectors), index)
    ensures ExcludableTo(Persist(w, job, stt, inputs, vectors), index)
  {
    hide ReleaseIsTop, PreviousIsBelow, CandidateFields, CandidateApart, DataLinked, AddEntries, WithoutChunks;
    hide ReplaceChunks, SameVersionChunks, Exposed, StoresExposed, Persist;
    var j, x := w.jobs[job], Persist(w, job, stt, inputs, vectors);
    forall p <- x.entries.Keys | Serves(x, p.0) && IsReady(x, p.1) && Exposed(x, p.1)
      ensures (index, p.1) in x.entries
    {
      assert p == (p.0, p.1);
      StoredExposed(w, job, stt, inputs, vectors, p.1);
      if p.1 in inputs {
        NewVectors(w, job, stt, inputs, vectors, p.1);
      } else {
        OldVectors(w, job, stt, inputs, vectors, p.1);
        assert w.chunks[p.1].video == j.video ==> p.1 in Leftovers(w, j.video, stt, j.model);
      }
    }
  }

  lemma KeptPersistSpares(
    w: World, job: nat, stt: string, inputs: map<nat, Option<string>>, vectors: map<nat, Vector>, index: string)
    requires Inv(w) && ExcludableTo(w, index) && Stores(w, job, inputs)
    requires Allowed(w, PersistStep(job, stt, inputs, vectors))
    requires ExcludableTo(Persist(w, job, stt, inputs, vectors), index)
    ensures SparesFrom(w, PersistStep(job, stt, inputs, vectors), index)
  {
    hide ReleaseIsTop, PreviousIsBelow, CandidateFields, CandidateApart, DataLinked, AddEntries, WithoutChunks;
    hide ReplaceChunks, SameVersionChunks, Exposed, StoresExposed, Persist;
    var j, x := w.jobs[job], Persist(w, job, stt, inputs, vectors);
    if StoresExposed(w, job, inputs) {
      if c :| c in inputs.Keys {
        NewVectors(w, job, stt, inputs, vectors, c);
        StoredExposed(w, job, stt, inputs, vectors, c);
        assert (j.index, c) in x.entries;
      }
      forall p <- w.entries.Keys | p.1 in Leftovers(w, j.video, stt, j.model) && Serves(w, p.0)
        ensures (index, p.1) in w.entries
      {
        OldVectors(w, job, stt, inputs, vectors, p.1);
        StoredExposed(w, job, stt, inputs, vectors, p.1);
        assert (p.0, p.1) in x.entries;
      }
    }
  }

  lemma PersistKeepsIff(
    w: World, job: nat, stt: string, inputs: map<nat, Option<string>>, vectors: map<nat, Vector>, index: string)
    requires Inv(w) && ExcludableTo(w, index) && Allowed(w, PersistStep(job, stt, inputs, vectors))
    ensures ExcludableTo(Persist(w, job, stt, inputs, vectors), index)
      <==> SparesFrom(w, PersistStep(job, stt, inputs, vectors), index)
  {
    hide ReleaseIsTop, PreviousIsBelow, CandidateFields, CandidateApart, DataLinked, AddEntries, WithoutChunks;
    hide ReplaceChunks, SameVersionChunks, ExcludableTo, LeftoversCopied;
    if Stores(w, job, inputs) {
      if ExcludableTo(Persist(w, job, stt, inputs, vectors), index) {
        KeptPersistSpares(w, job, stt, inputs, vectors, index);
      }
      if SparesFrom(w, PersistStep(job, stt, inputs, vectors), index) {
        SparedPersistKeeps(w, job, stt, inputs, vectors, index);
      }
    } else {
      QuietKeeps(w, Persist(w, job, stt, inputs, vectors), index);
    }
  }

  // ---- steps and runs ----

  lemma StepKeepsFromIff(w: World, step: Step, index: string)
    requires Inv(w) && ExcludableTo(w, index) && Allowed(w, step)
    requires w.release.value.previousIndex.Some? ==> w.release.value.previousIndex.value == index
    requires !step.RollbackStep? && !step.CutoverStep?
    ensures Apply(w, step).release.Some? && (ExcludableTo(Apply(w, step), index) <==> SparesFrom(w, step, index))
  {
    hide ReleaseIsTop, PreviousIsBelow, CandidateFields, CandidateApart, DataLinked, CandidateIndexFor, OpenOutcomeOf;
    hide Persist, EnqueueItem, ReindexItem, CatalogRelease, Reembed, ScanAndRecover, PurgeVideo, SetVideoStatus;
    hide Exposed, LeftoversCopied, StoresExposed, ExposedWithout, Returns, Uncopied, ExcludableTo;
    match step
    case OpenStep(runId, now) => OpenKeeps(w, runId, now, index);
    case PersistStep(job, stt, inputs, vectors) => PersistKeepsIff(w, job, stt, inputs, vectors, index);
    case ReindexStep(key, vectors, status) => ReindexKeeps(w, key, vectors, status, index);
    case CatalogStep(dimension) => CatalogKeeps(w, dimension, index);
    case ReembedStep(q, vectors) => ReembedKeepsIff(w, q, vectors, index);
    case PurgeStep(v) => PurgeKeepsIff(w, v, index);
    case RecoveryStep => RecoveryKeepsIff(w, index);
    case FailStep(v) => VideoKeeps(w, step, index);
    case DeleteStep(v) => VideoKeeps(w, step, index);
    case UploadStep(v, project) => VideoKeeps(w, step, index);
    case LoadTargetStep(job, v) => QuietKeeps(w, Apply(w, step), index);
    case EnqueueStep(v, source) => QuietKeeps(w, Apply(w, step), index);
    case RunStep(runId, run) => QuietKeeps(w, Apply(w, step), index);
  }

  /** What a step has to meet for the next rollback; a cutover has nothing to meet. */
  ghost predicate Spares(w: World, step: Step) {
    w.release.Some? &&
      (RollbackTarget(w).Some? && !step.CutoverStep? ==> SparesFrom(w, step, RollbackTarget(w).value.1))
  }

  /** A gated cutover establishes that the next rollback can exclude every project it has to, and every other step but
      a rollback keeps it exactly when it meets its condition. */
  lemma StepKeepsExcludableIff(w: World, step: Step)
    requires Inv(w) && Allowed(w, step) && !step.RollbackStep?
    ensures CutsOver(w, step) ==> Excludable(Apply(w, step))
    ensures Excludable(w) ==> (Excludable(Apply(w, step)) <==> Spares(w, step))
  {
    hide Inv, RollbackTarget, OldOnlyLeft, Exposed, SparesFrom, CutoverTime, CutoverOutcomeOf, Cutover;
    InvHasRelease(w);
    StepKeepsInv(w, step);
    InvHasRelease(Apply(w, step));
    if step.CutoverStep? {
      if CutoverOutcomeOf(w, step.runId, step.modelReady) == CutOver {
        CutoverFillsTarget(w, step.runId, step.modelReady, step.snapshotId, step.now);
      } else {
        NoCutover(w, step.runId, step.modelReady, step.snapshotId, step.now);
      }
    } else {
      OtherTargets(w, step);
      if RollbackTarget(w).Some? && Excludable(w) {
        if w.release.value.previousIndex.Some? { TargetIsPrevious(w); }
        StepKeepsFromIff(w, step, RollbackTarget(w).value.1);
      }
    }
  }

  ghost predicate SparesRun(w: World, steps: seq<Step>)
    decreases |steps|
  {
    steps == [] || (Spares(w, steps[0]) && SparesRun(Apply(w, steps[0]), steps[1..]))
  }

  ghost predicate AlwaysExcludable(w: World, steps: seq<Step>)
    decreases |steps|
  {
    Excludable(w) && (steps != [] ==> AlwaysExcludable(Apply(w, steps[0]), steps[1..]))
  }

  lemma {:induction false} RunKeepsExcludableIff(w: World, steps: seq<Step>)
    requires Inv(w) && Excludable(w) && AllowedRun(w, steps) && NoRollback(steps)
    ensures AlwaysExcludable(w, steps) <==> SparesRun(w, steps)
    ensures AlwaysExcludable(w, steps) ==> Excludable(Run(w, steps))
    decreases |steps|
  {
    hide Inv, Excludable, Spares, Apply, Allowed;
    if steps != [] {
      assert steps[0] in steps && forall s <- steps[1..] :: s in steps;
      StepKeepsInv(w, steps[0]);
      StepKeepsExcludableIff(w, steps[0]);
      if Excludable(Apply(w, steps[0])) { RunKeepsExcludableIff(Apply(w, steps[0]), steps[1..]); }
    }
  }

  /** Whatever happened before a cutover that passed the gate, and whatever happens after it short of a rollback: the
      next rollback, if it starts and restores at once, excludes every project it has to exactly when the tables
      then allow it; and they allow it all along exactly when each step since the cutover met its condition. */
  lemma RollbackAfterCutoverExcludes(
    w: World, before: seq<Step>, cutover: Step, after: seq<Step>, q: RollbackRequest, modelReady: bool, now: int)
    requires Inv(w) && AllowedRun(w, before) && CutsOver(Run(w, before), cutover)
    requires Allowed(Run(w, before), cutover)
    requires AllowedRun(Apply(Run(w, before), cutover), after) && NoRollback(after)
    ensures
      var (x, y) := (Apply(Run(w, before), cutover), Run(Apply(Run(w, before), cutover), after));
      var (r, outcome) := HandleRollback(y, q, modelReady, now);
      && (AlwaysExcludable(x, after) <==> SparesRun(x, after)) && (SparesRun(x, after) ==> Excludable(y))
      && (AdmissionOf(y, q) == Start && outcome == Restored ==>
           y.release.Some? && (ExclusionComplete(r, y.release.value.activeIndex) <==> Excludable(y)))
  {
    hide Inv, HandleRollback, AdmissionOf, Excludable, ExclusionComplete, Apply, Allowed;
    var x := Apply(Run(w, before), cutover);
    var y := Run(x, after);
    RunKeepsInv(w, before);
    StepKeepsInv(Run(w, before), cutover);
    StepKeepsExcludableIff(Run(w, before), cutover);
    RunKeepsExcludableIff(x, after);
    RunKeepsInv(x, after);
    InvHasRelease(y);
    if AdmissionOf(y, q) == Start && HandleRollback(y, q, modelReady, now).1 == Restored {
      RollbackExcludesIff(y, q, modelReady, now);
    }
  }

  /** A timely ingest that re-ingests a ready video or leaves no older chunk of the video meets its condition. */
  lemma TimelySpares(w: World, job: nat, stt: string, inputs: map<nat, Option<string>>, vectors: map<nat, Vector>)
    requires Inv(w) && Timely(w, job)
    requires Stores(w, job, inputs) ==>
      w.videos[w.jobs[job].video].status == Ready || Leftovers(w, w.jobs[job].video, stt, w.jobs[job].model) == {}
    ensures Spares(w, PersistStep(job, stt, inputs, vectors))
  {
    hide Inv, RollbackTarget, StaysServable, Serves;
    InvHasRelease(w);
    if RollbackTarget(w).Some? && w.release.value.previousIndex.Some? { TargetIsPrevious(w); }
  }
}
