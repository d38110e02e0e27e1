/** The stores over one database session, statement by statement, tied to the steps on its tables. */
module Stores {
  import opened Wrappers
  import opened SnapshotRegistry
  import opened Serving

  class Database {
    var release: Option<Release>
    var snapshots: seq<Snapshot>
    var runs: map<nat, PipelineRun>
    var catalog: map<string, CatalogRow>
    var projects: map<nat, ServingState>
    var videos: map<nat, Video>
    var chunks: map<nat, Chunk>
    var entries: map<(string, nat), Entry>
    var items: map<ItemKey, Item>
    var jobs: map<nat, IngestJob>
    var requests: set<Reembedding>

    constructor (w: World)
      ensures Value() == w
    {
      release, snapshots, runs, catalog := w.release, w.snapshots, w.runs, w.catalog;
      projects, videos, chunks, entries := w.projects, w.videos, w.chunks, w.entries;
      items, jobs, requests := w.items, w.jobs, w.requests;
    }

    function Value(): World
      reads this
    {
      World(release, snapshots, runs, catalog, projects, videos, chunks, entries, items, jobs, requests)
    }
  }

  /** The rows of a query, in some order. */
  method Rows<T(==)>(s: set<T>) returns (rows: seq<T>)
    ensures forall x :: x in rows <==> x in s
    ensures |rows| == |s| && forall i, j :: 0 <= i < j < |rows| ==> rows[i] != rows[j]
  {
    rows := [];
    var rest := s;
    while rest != {}
      invariant rest <= s && |rows| + |rest| == |s|
      invariant forall x :: x in rows <==> x in s - rest
      invariant forall i, j :: 0 <= i < j < |rows| ==> rows[i] != rows[j]
    {
      var x :| x in rest;
      assert s - (rest - {x}) == s - rest + {x};
      rows, rest := rows + [x], rest - {x};
    }
  }

  class ModelSnapshotStore {
    const db: Database

    constructor (db: Database)
      ensures this.db == db
    {
      this.db := db;
    }

    method RecordCutover(id: nat, model: string, index: string, capturedAt: int)
      modifies db`snapshots
      ensures db.snapshots == SnapshotRegistry.RecordCutover(old(db.snapshots), id, model, index, capturedAt)
    {
      var previousStable := Find(db.snapshots, PreviousStable);
      if previousStable.Some? {
        var i := previousStable.value;
        db.snapshots := db.snapshots[i := db.snapshots[i].(status := Superseded)];
      }
      var currentActive := Find(db.snapshots, Active);
      if currentActive.Some? {
        var i := currentActive.value;
        db.snapshots := db.snapshots[i := db.snapshots[i].(status := PreviousStable)];
      }
      var link := if currentActive.Some? then Some(db.snapshots[currentActive.value].id) else None;
      db.snapshots := db.snapshots + [Snapshot(id, model, index, Active, link, capturedAt)];
    }

    /** Without a rollback target nothing changes. */
    method RecordRollback() returns (target: Option<nat>)
      modifies db`snapshots
      ensures target == Find(old(db.snapshots), PreviousStable)
      ensures SnapshotRegistry.RecordRollback(old(db.snapshots)) == if target.Some? then Some(db.snapshots) else None
      ensures target.None? ==> db.snapshots == old(db.snapshots)
    {
      target := Find(db.snapshots, PreviousStable);
      if target.None? { return; }
      var t := target.value;
      var currentActive := Find(db.snapshots, Active);
      if currentActive.Some? {
        var i := currentActive.value;
        db.snapshots := db.snapshots[i := db.snapshots[i].(status := RolledBack)];
      }
      db.snapshots := db.snapshots[t := db.snapshots[t].(status := Superseded)];
      db.snapshots := db.snapshots[t := db.snapshots[t].(status := Active)];
      assert db.snapshots == BeforeNextPrior(old(db.snapshots));
      var nextPrior := LatestSuperseded(db.snapshots);
      if nextPrior.Some? {
        var i := nextPrior.value;
        db.snapshots := db.snapshots[i := db.snapshots[i].(status := PreviousStable)];
      }
    }
  }

  class ModelReleaseStore {
    const db: Database

    constructor (db: Database)
      ensures this.db == db
    {
      this.db := db;
    }

    /** Opens a candidate unless the release is not stable any more. */
    method TryOpenCandidateRelease(model: string, index: string, now: int) returns (ok: bool)
      modifies db`release
      ensures ok == (old(db.release).Some? && old(db.release).value.status == Stable)
      ensures db.release ==
        if ok then Some(old(db.release).value.(status := CandidateReindexing, candidateModel := Some(model),
          candidateIndex := Some(index), candidateOpenedAt := Some(now), candidateReadyAt := None))
        else old(db.release)
    {
      ok := db.release.Some? && db.release.value.status == Stable;
      if ok {
        db.release := Some(db.release.value.(status := CandidateReindexing, candidateModel := Some(model),
          candidateIndex := Some(index), candidateOpenedAt := Some(now), candidateReadyAt := None));
      }
    }

    method MarkCandidateReady(readyAt: int)
      requires db.release.Some?
      modifies db`release
      ensures db.release == Some(old(db.release).value.(candidateReadyAt := Some(readyAt)))
    {
      db.release := Some(db.release.value.(candidateReadyAt := Some(readyAt)));
    }

    /** Without a candidate this raises, and nothing changes. */
    method CompleteCandidateCutover(snapshotId: nat, switchedAt: int) returns (completed: bool)
      modifies db`release, db`snapshots
      ensures completed == (old(db.release).Some?
        && old(db.release).value.candidateModel.Some? && old(db.release).value.candidateIndex.Some?)
      ensures !completed ==> db.Value() == old(db.Value())
      ensures completed ==>
        var r := old(db.release).value;
        && db.release == Some(Promote(r, switchedAt))
        && db.snapshots == SnapshotRegistry.RecordCutover(
             old(db.snapshots), snapshotId, r.candidateModel.value, r.candidateIndex.value, switchedAt)
    {
      if db.release.None? { return false; }
      if db.release.value.candidateModel.None? || db.release.value.candidateIndex.None? { return false; }
      var r := db.release.value;
      var cutoverModel, cutoverIndex := r.candidateModel.value, r.candidateIndex.value;
      r := r.(previousModel := Some(r.activeModel), previousIndex := Some(r.activeIndex));
      r := r.(activeModel := cutoverModel, activeIndex := cutoverIndex);
      r := r.(candidateModel := None, candidateIndex := None, candidateOpenedAt := None, candidateReadyAt := None);
      r := r.(status := Stable, switchedAt := Some(switchedAt));
      db.release := Some(r);
      var snapshots := new ModelSnapshotStore(db);
      snapshots.RecordCutover(snapshotId, cutoverModel, cutoverIndex, switchedAt);
      completed := true;
    }

    method MarkRollbackPreparing()
      requires db.release.Some?
      modifies db`release
      ensures db.Value() == MarkPreparing(old(db.Value()))
    {
      db.release := Some(db.release.value.(status := RollbackPreparing));
    }

    /** Without a release or a rollback target this raises, and nothing changes. */
    method CompleteRollbackRestore(restoredAt: int) returns (completed: bool)
      modifies db`release, db`snapshots
      ensures completed == (old(db.release).Some? && RollbackTarget(old(db.Value())).Some?)
      ensures db.Value() == if completed then CompleteRestore(old(db.Value()), restoredAt) else old(db.Value())
    {
      if db.release.None? { return false; }
      var snapshots := new ModelSnapshotStore(db);
      var target := snapshots.RecordRollback();
      if target.None? { return false; }
      var row := db.snapshots[target.value];
      var r := db.release.value;
      r := r.(activeModel := row.model, activeIndex := row.index, previousModel := None, previousIndex := None);
      r := r.(candidateModel := None, candidateIndex := None, candidateOpenedAt := None, candidateReadyAt := None);
      r := r.(status := Stable, switchedAt := Some(restoredAt));
      db.release := Some(r);
      completed := true;
    }
  }

  class ProjectRollbackStore {
    const db: Database

    constructor (db: Database)
      ensures this.db == db
    {
      this.db := db;
    }

    /** Excludes exactly the projects that have a chunk stored under the model, beside those excluded before. */
    method ExcludeProjectsForProblemModel(model: string) returns (count: nat)
      modifies db`projects
      ensures db.Value() == ExcludeProjects(old(db.Value()), model)
      ensures db.projects.Keys == old(db.projects).Keys
      ensures forall p <- db.projects.Keys :: db.projects[p] == RollbackExcluded <==>
        (old(db.projects)[p] == RollbackExcluded || exists c :: StoredUnder(old(db.Value()), c, p, model))
      ensures count == |AffectedProjects(old(db.Value()), model)|
    {
      forall p <- db.projects.Keys { ExcludesStoredUnder(db.Value(), model, p); }
      var affected := AffectedProjects(db.Value(), model);
      count := |affected|;
      db.projects := map p | p in db.projects :: if p in affected then RollbackExcluded else db.projects[p];
    }

    method IsVideoRestored(v: nat, model: string, index: string) returns (restored: bool)
      ensures restored == VideoRestored(db.Value(), v, model, index)
    {
      var chunkIds := ChunksOf(db.Value(), v);
      if chunkIds == {} { return false; }
      var reflected := set c | c in chunkIds && (index, c) in db.entries && db.entries[(index, c)].model == model;
      restored := forall c <- chunkIds :: c in reflected;
    }

    method IsProjectRestored(p: nat, model: string, index: string) returns (restored: bool)
      ensures restored == ProjectRestored(db.Value(), p, model, index)
    {
      var rows := Rows(ReadyVideos(db.Value(), p));
      if rows == [] { return false; }
      assert rows[0] in rows;
      for i := 0 to |rows|
        invariant forall j :: 0 <= j < i ==> VideoRestored(db.Value(), rows[j], model, index)
      {
        var videoRestored := IsVideoRestored(rows[i], model, index);
        if !videoRestored {
          assert rows[i] in rows;
          return false;
        }
      }
      return true;
    }

    method ReenterRestoredProjects(model: string, index: string) returns (count: nat)
      modifies db`projects
      ensures db.Value() == Reenter(old(db.Value()), model, index)
      ensures count == |ExcludedProjects(old(db.Value()))| - |ExcludedProjects(db.Value())|
    {
      hide ProjectRestored;
      var w := db.Value();
      var excluded: set<nat> := ExcludedProjects(w);
      var rows: seq<nat> := Rows(excluded);
      var reenterable: set<nat> := {};
      for i := 0 to |rows|
        invariant db.Value() == w
        invariant forall j :: 0 <= j < i ==> (rows[j] in reenterable <==> ProjectRestored(w, rows[j], model, index))
        invariant forall p <- reenterable :: p in excluded
        invariant forall j :: i <= j < |rows| ==> rows[j] !in reenterable
      {
        var restored := IsProjectRestored(rows[i], model, index);
        assert rows[i] in excluded;
        if restored { reenterable := reenterable + {rows[i]}; }
      }
      forall p <- excluded ensures p in reenterable <==> ProjectRestored(w, p, model, index) {
        assert p in rows;
      }
      db.projects := map p | p in db.projects :: if p in reenterable then Servable else db.projects[p];
      count := |reenterable|;
      assert ExcludedProjects(db.Value()) == excluded - reenterable;
    }

    /** The videos to re-embed, each once. */
    method RestoredReembeddingVideoIds(model: string, index: string) returns (videoIds: seq<nat>)
      ensures forall v :: v in videoIds <==> v in DispatchSet(db.Value(), model, index)
      ensures forall i, j :: 0 <= i < j < |videoIds| ==> videoIds[i] != videoIds[j]
    {
      var candidates := set v: nat | v in db.videos && db.videos[v].status == Ready
        && db.videos[v].project.Some? && db.videos[v].project.value in ExcludedProjects(db.Value());
      var rows := Rows(candidates);
      videoIds := [];
      for i := 0 to |rows|
        invariant forall v :: v in videoIds <==> v in rows[..i] && !VideoRestored(db.Value(), v, model, index)
        invariant forall j, k :: 0 <= j < k < |videoIds| ==> videoIds[j] != videoIds[k]
      {
        var restored := IsVideoRestored(rows[i], model, index);
        if !restored { videoIds := videoIds + [rows[i]]; }
      }
      assert rows[..|rows|] == rows;
    }
  }

  class RollbackRecovery {
    const db: Database

    constructor (db: Database)
      ensures this.db == db
    {
      this.db := db;
    }

    /** Sends one request for each video. */
    method DispatchRestoredReembedding(model: string, index: string) returns (count: nat)
      modifies db`requests
      ensures db.Value() == Dispatch(old(db.Value()), model, index)
      ensures count == |DispatchSet(old(db.Value()), model, index)|
    {
      var store := new ProjectRollbackStore(db);
      var videoIds := store.RestoredReembeddingVideoIds(model, index);
      ghost var sent: set<nat> := {};
      for i := 0 to |videoIds|
        invariant forall v :: v in sent <==> v in videoIds[..i]
        invariant |sent| == i
        invariant db.requests == old(db.requests) + set v | v in sent :: Reembedding(v, model, index)
      {
        db.requests := db.requests + {Reembedding(videoIds[i], model, index)};
        sent := sent + {videoIds[i]};
      }
      assert videoIds[..|videoIds|] == videoIds;
      assert sent == DispatchSet(old(db.Value()), model, index);
      count := |videoIds|;
    }

    method ScanAndRecover()
      modifies db`requests, db`projects
      ensures db.Value() == Serving.ScanAndRecover(old(db.Value()))
    {
      if db.release.None? || db.release.value.status != Stable { return; }
      if ExcludedProjects(db.Value()) == {} { return; }
      var r := db.release.value;
      var dispatched := DispatchRestoredReembedding(r.activeModel, r.activeIndex);
      var store := new ProjectRollbackStore(db);
      var reentered := store.ReenterRestoredProjects(r.activeModel, r.activeIndex);
    }
  }
}
