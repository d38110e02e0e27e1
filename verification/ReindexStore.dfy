/** The reindex store: the gate before cutover, the items of the reindex worker, and the vectors it writes. */
module ReindexStore {
  import opened Wrappers
  import opened SnapshotRegistry
  import opened Serving
  import opened ServingInvariant
  import opened Stores

  // ---- vectors by chunk ----

  /** The vectors of a batch by chunk. */
  function Zip(chunkIds: seq<nat>, vectors: seq<Vector>): (r: map<nat, Vector>)
    requires |chunkIds| == |vectors|
    ensures forall c :: c in r <==> c in chunkIds
  {
    if chunkIds == [] then map[]
    else
      var n := |chunkIds| - 1;
      Zip(chunkIds[..n], vectors[..n])[chunkIds[n] := vectors[n]]
  }

  lemma {:induction false} ZipAt(chunkIds: seq<nat>, vectors: seq<Vector>, i: nat)
    requires |chunkIds| == |vectors| && i < |chunkIds|
    requires forall j, k :: 0 <= j < k < |chunkIds| ==> chunkIds[j] != chunkIds[k]
    ensures Zip(chunkIds, vectors)[chunkIds[i]] == vectors[i]
  {
    var n := |chunkIds| - 1;
    if i < n { ZipAt(chunkIds[..n], vectors[..n], i); }
  }

  lemma AddOne(entries: map<(string, nat), Entry>, index: string, video: nat, model: string,
               vectors: map<nat, Vector>, c: nat, x: Vector)
    ensures AddEntries(entries, index, video, model, vectors)[(index, c) := Entry(video, model, x)]
         == AddEntries(entries, index, video, model, vectors[c := x])
  {
    hide AddEntries;
    var r, r' := AddEntries(entries, index, video, model, vectors)[(index, c) := Entry(video, model, x)],
                 AddEntries(entries, index, video, model, vectors[c := x]);
    assert r.Keys == r'.Keys;
  }

  lemma AddTwice(entries: map<(string, nat), Entry>, index: string, video: nat, model: string,
                 a: map<nat, Vector>, b: map<nat, Vector>)
    ensures AddEntries(AddEntries(entries, index, video, model, a), index, video, model, b)
         == AddEntries(entries, index, video, model, a + b)
  {
    hide AddEntries;
    var once := AddEntries(entries, index, video, model, a);
    var r, r' := AddEntries(once, index, video, model, b), AddEntries(entries, index, video, model, a + b);
    assert r.Keys == r'.Keys;
  }

  lemma AddNone(entries: map<(string, nat), Entry>, index: string, video: nat, model: string)
    ensures AddEntries(entries, index, video, model, map[]) == entries
  {
  }

  // ---- items for old-only videos ----

  /** The item of an old-only video: some chunk of it is in the source index and not in the target. */
  predicate IsOldOnly(w: World, key: ItemKey, target: string, excluded: set<string>) {
    key.target == target && key.source in SourceIndexes(w, excluded)
      && key.video in OldOnlyVideos(w, key.source, target)
  }

  function EnsureAll(items: map<ItemKey, Item>, keys: seq<ItemKey>, model: string): map<ItemKey, Item> {
    if keys == [] then items else EnsureItem(EnsureAll(items, keys[..|keys| - 1], model), keys[|keys| - 1], model)
  }

  lemma {:induction false} EnsureAllConcat(items: map<ItemKey, Item>, a: seq<ItemKey>, b: seq<ItemKey>, model: string)
    ensures EnsureAll(EnsureAll(items, a, model), b, model) == EnsureAll(items, a + b, model)
  {
    if b == [] {
      assert a + b == a;
    } else {
      EnsureAllConcat(items, a, b[..|b| - 1], model);
      assert (a + b)[..|a + b| - 1] == a + b[..|b| - 1];
    }
  }

  /** The item is queued, being worked on or failed, but not finished. */
  predicate IsOpen(items: map<ItemKey, Item>, key: ItemKey) {
    key in items && items[key].status !in {Succeeded, Skipped}
  }

  function OpenVideos(items: map<ItemKey, Item>, videos: set<nat>, source: string, target: string): set<nat> {
    set v | v in videos && IsOpen(items, ItemKey(v, source, target))
  }

  function Min(a: int, b: int): int { if a <= b then a else b }

  /** As many of the old-only videos of a source have open items as the room left allows. */
  ghost predicate Queued(w: World, items: map<ItemKey, Item>, source: string, target: string, room: int) {
    var videos := OldOnlyVideos(w, source, target);
    |OpenVideos(items, videos, source, target)| >= Min(|videos|, room)
  }

  lemma QueuedStays(
    w: World, items: map<ItemKey, Item>, items': map<ItemKey, Item>, sources: set<string>, target: string, room: int,
    room': int)
    requires room' <= room && forall s <- sources :: Queued(w, items, s, target, room)
    requires forall k :: IsOpen(items, k) ==> IsOpen(items', k)
    ensures forall s <- sources :: Queued(w, items', s, target, room')
  {
    forall s <- sources ensures Queued(w, items', s, target, room') {
      var videos := OldOnlyVideos(w, s, target);
      SubsetSize(OpenVideos(items, videos, s, target), OpenVideos(items', videos, s, target));
    }
  }

  lemma QueuedAnyway(w: World, r: World, items: map<ItemKey, Item>, source: string, target: string, room: int)
    requires r == w.(items := r.items) && Queued(r, items, source, target, room)
    ensures Queued(w, items, source, target, room)
  {
    SameQueries(w, r, source, target, {});
  }

  lemma NoRoom(w: World, items: map<ItemKey, Item>, sources: set<string>, target: string)
    ensures forall s <- sources :: Queued(w, items, s, target, 0)
  {
  }

  lemma QueuedNow(w: World, items: map<ItemKey, Item>, source: string, target: string, rows: seq<nat>, room: int)
    requires |rows| >= Min(|OldOnlyVideos(w, source, target)|, room)
    requires forall i, j :: 0 <= i < j < |rows| ==> rows[i] != rows[j]
    requires forall v <- rows :: v in OldOnlyVideos(w, source, target) && IsOpen(items, ItemKey(v, source, target))
    ensures Queued(w, items, source, target, room)
  {
    DistinctCount(rows);
    SubsetSize(Elements(rows), OpenVideos(items, OldOnlyVideos(w, source, target), source, target));
  }

  function Elements(rows: seq<nat>): set<nat> { set v: nat | v in rows }

  lemma DistinctCount(rows: seq<nat>)
    requires forall i, j :: 0 <= i < j < |rows| ==> rows[i] != rows[j]
    ensures |Elements(rows)| == |rows|
  {
    if rows != [] {
      var n := |rows| - 1;
      DistinctCount(rows[..n]);
      assert Elements(rows) == Elements(rows[..n]) + {rows[n]};
    }
  }

  lemma KeysAreOldOnly(w: World, rows: seq<nat>, source: string, target: string, excluded: set<string>)
    requires source in SourceIndexes(w, excluded) && forall v <- rows :: v in OldOnlyVideos(w, source, target)
    ensures forall k <- KeysOf(rows, source, target) :: IsOldOnly(w, k, target, excluded)
  {
  }

  lemma NoKeys(items: map<ItemKey, Item>, rows: seq<nat>, source: string, target: string, model: string)
    ensures EnsureAll(items, KeysOf(rows[..0], source, target), model) == items
  {
  }

  lemma OneMoreKey(items: map<ItemKey, Item>, rows: seq<nat>, i: nat, source: string, target: string, model: string)
    requires i < |rows|
    ensures EnsureAll(items, KeysOf(rows[..i + 1], source, target), model)
         == EnsureItem(
              EnsureAll(items, KeysOf(rows[..i], source, target), model), ItemKey(rows[i], source, target), model)
  {
    assert KeysOf(rows[..i + 1], source, target)[..i] == KeysOf(rows[..i], source, target);
  }

  lemma OpenAfterEnsure(items: map<ItemKey, Item>, key: ItemKey, model: string)
    ensures var r := EnsureItem(items, key, model);
      IsOpen(r, key) && forall k :: IsOpen(items, k) ==> IsOpen(r, k)
  {
  }

  /** The items after queueing those of `keys`, of which `count` are new. */
  ghost predicate Enqueued(
    w: World, items: map<ItemKey, Item>, keys: seq<ItemKey>, count: nat, target: string, model: string,
    excluded: set<string>)
  {
    && items == EnsureAll(w.items, keys, model)
    && (forall k <- keys :: IsOldOnly(w, k, target, excluded))
    && |items| == |w.items| + count
    && forall k :: IsOpen(w.items, k) ==> IsOpen(items, k)
  }

  lemma EnqueuedNone(w: World, target: string, model: string, excluded: set<string>)
    ensures Enqueued(w, w.items, [], 0, target, model, excluded)
  {
  }

  /** A closed gate leaves at least one old-only video with an open item. */
  lemma SomethingIsOpen(
    w: World, items: map<ItemKey, Item>, keys: seq<ItemKey>, count: nat, target: string, model: string,
    excluded: set<string>, limit: nat)
    requires OldOnlyLeft(w, target, excluded) && 1 <= limit && count <= limit
    requires Enqueued(w, items, keys, count, target, model, excluded)
    requires forall s <- SourceIndexes(w, excluded) :: Queued(w, items, s, target, limit - count)
    ensures exists k :: IsOldOnly(w, k, target, excluded) && IsOpen(items, k)
  {
    if keys != [] {
      var k := keys[|keys| - 1];
      assert IsOldOnly(w, k, target, excluded) && IsOpen(items, k);
    } else {
      var s :| s in SourceIndexes(w, excluded) && OldOnlyVideos(w, s, target) != {};
      assert OpenVideos(items, OldOnlyVideos(w, s, target), s, target) != {};
      var v :| v in OpenVideos(items, OldOnlyVideos(w, s, target), s, target);
      assert IsOldOnly(w, ItemKey(v, s, target), target, excluded);
    }
  }

  lemma EnqueuedMore(
    w: World, between: World, items: map<ItemKey, Item>, keys: seq<ItemKey>, count: nat, more: seq<ItemKey>,
    created: nat,
    target: string, model: string, excluded: set<string>)
    requires between == w.(items := between.items)
    requires Enqueued(w, between.items, keys, count, target, model, excluded)
    requires Enqueued(between, items, more, created, target, model, excluded)
    ensures Enqueued(w, items, keys + more, count + created, target, model, excluded)
    ensures forall k :: IsOpen(between.items, k) ==> IsOpen(items, k)
  {
    hide EnsureAll, IsOpen, SourceIndexes, OldOnlyVideos;
    EnsureAllConcat(w.items, keys, more, model);
    forall k <- more ensures IsOldOnly(w, k, target, excluded) {
      SameQueries(w, between, k.source, target, excluded);
    }
  }

  ghost function OldOnlyPairs(w: World, sources: set<string>, target: string): set<(string, nat)> {
    set s, v | s in sources && v in OldOnlyVideos(w, s, target) :: (s, v)
  }

  lemma NoPairs(w: World, target: string)
    ensures OldOnlyPairs(w, {}, target) == {}
  {
  }

  lemma PairsMeanLeft(w: World, target: string, excluded: set<string>)
    ensures |OldOnlyPairs(w, SourceIndexes(w, excluded), target)| == 0 <==> !OldOnlyLeft(w, target, excluded)
  {
    hide SourceIndexes, OldOnlyVideos;
    if OldOnlyLeft(w, target, excluded) {
      var s :| s in SourceIndexes(w, excluded) && OldOnlyVideos(w, s, target) != {};
      var v :| v in OldOnlyVideos(w, s, target);
      assert (s, v) in OldOnlyPairs(w, SourceIndexes(w, excluded), target);
    }
  }

  lemma OneMoreSource(w: World, sources: set<string>, source: string, target: string)
    requires source !in sources
    ensures |OldOnlyPairs(w, sources + {source}, target)|
         == |OldOnlyPairs(w, sources, target)| + |OldOnlyVideos(w, source, target)|
  {
    hide OldOnlyVideos;
    var videos := OldOnlyVideos(w, source, target);
    PairsSize(source, videos);
    assert OldOnlyPairs(w, sources + {source}, target) == OldOnlyPairs(w, sources, target) + PairsOf(source, videos);
  }

  function PairsOf(source: string, videos: set<nat>): set<(string, nat)> { set v | v in videos :: (source, v) }

  lemma PairsSize(source: string, videos: set<nat>)
    ensures |PairsOf(source, videos)| == |videos|
  {
    if videos != {} {
      var v :| v in videos;
      PairsSize(source, videos - {v});
      assert PairsOf(source, videos) == PairsOf(source, videos - {v}) + {(source, v)};
    }
  }

  /** Items do not show in the queries. */
  lemma SameQueries(w: World, r: World, source: string, target: string, excluded: set<string>)
    requires r == w.(items := r.items)
    ensures SourceIndexes(r, excluded) == SourceIndexes(w, excluded)
    ensures OldOnlyVideos(r, source, target) == OldOnlyVideos(w, source, target)
  {
  }

  function KeysOf(videos: seq<nat>, source: string, target: string): seq<ItemKey> {
    seq(|videos|, i requires 0 <= i < |videos| => ItemKey(videos[i], source, target))
  }

  class LegacyReindexStore {
    const db: Database

    constructor (db: Database)
      ensures this.db == db
    {
      this.db := db;
    }

    method UpsertReindexedVectors(index: string, video: nat, model: string, chunkIds: seq<nat>, vectors: seq<Vector>)
      requires |chunkIds| == |vectors|
      modifies db`entries
      ensures db.entries == AddEntries(old(db.entries), index, video, model, Zip(chunkIds, vectors))
    {
      hide AddEntries;
      AddNone(db.entries, index, video, model);
      for i := 0 to |chunkIds|
        invariant db.entries == AddEntries(old(db.entries), index, video, model, Zip(chunkIds[..i], vectors[..i]))
      {
        AddOne(old(db.entries), index, video, model, Zip(chunkIds[..i], vectors[..i]), chunkIds[i], vectors[i]);
        assert chunkIds[..i + 1][..i] == chunkIds[..i] && vectors[..i + 1][..i] == vectors[..i];
        db.entries := db.entries[(index, chunkIds[i]) := Entry(video, model, vectors[i])];
      }
      assert chunkIds[..|chunkIds|] == chunkIds && vectors[..|vectors|] == vectors;
    }

    /** Counts the vectors that any chunk of the video has in the target index. */
    method TargetVectorCount(key: ItemKey) returns (count: nat)
      ensures count == |SourceChunks(db.Value(), key.video, key.target)|
    {
      var chunkIds := ChunksOf(db.Value(), key.video);
      if chunkIds == {} {
        assert SourceChunks(db.Value(), key.video, key.target) == {};
        return 0;
      }
      var found := set c: nat | c in chunkIds && (key.target, c) in db.entries;
      assert found == SourceChunks(db.Value(), key.video, key.target);
      count := |found|;
    }

    method Mark(key: ItemKey, status: ItemStatus)
      requires key in db.items
      modifies db`items
      ensures db.items == old(db.items)[key := old(db.items)[key].(status := status)]
    {
      db.items := db.items[key := db.items[key].(status := status)];
    }

    /** Queues an item for the video, unless it has one that is not finished. */
    method EnsureItem(key: ItemKey, model: string) returns (created: bool)
      modifies db`items
      ensures db.items == Serving.EnsureItem(old(db.items), key, model)
      ensures created == (key !in old(db.items)) && IsOpen(db.items, key)
    {
      if key in db.items {
        var item := db.items[key];
        if item.status in {Succeeded, Skipped} {
          db.items := db.items[key := item.(status := Pending, targetModel := model)];
        }
        return false;
      }
      db.items := db.items[key := Item(Pending, model)];
      return true;
    }

    method EnqueueRows(source: string, target: string, model: string, rows: seq<nat>) returns (count: nat)
      modifies db`items
      ensures db.items == EnsureAll(old(db.items), KeysOf(rows, source, target), model)
      ensures |db.items| == |old(db.items)| + count && count <= |rows|
      ensures forall k :: IsOpen(old(db.items), k) ==> IsOpen(db.items, k)
      ensures forall v <- rows :: IsOpen(db.items, ItemKey(v, source, target))
    {
      hide EnsureAll, IsOpen, KeysOf;
      NoKeys(db.items, rows, source, target, model);
      count := 0;
      for i := 0 to |rows|
        invariant db.items == EnsureAll(old(db.items), KeysOf(rows[..i], source, target), model)
        invariant |db.items| == |old(db.items)| + count && count <= i
        invariant forall k :: IsOpen(old(db.items), k) ==> IsOpen(db.items, k)
        invariant forall j :: 0 <= j < i ==> IsOpen(db.items, ItemKey(rows[j], source, target))
      {
        ghost var before := db.items;
        OneMoreKey(old(db.items), rows, i, source, target, model);
        OpenAfterEnsure(before, ItemKey(rows[i], source, target), model);
        var created := EnsureItem(ItemKey(rows[i], source, target), model);
        if created { count := count + 1; }
      }
      assert rows[..|rows|] == rows;
    }

    method EnqueueSource(source: string, target: string, model: string, ghost excluded: set<string>, remaining: nat)
      returns (count: nat, ghost keys: seq<ItemKey>)
      requires source in SourceIndexes(db.Value(), excluded)
      modifies db`items
      ensures Enqueued(old(db.Value()), db.items, keys, count, target, model, excluded) && count <= remaining
      ensures Queued(old(db.Value()), db.items, source, target, remaining - count)
    {
      ghost var w := db.Value();
      var rows: seq<nat> := Rows(OldOnlyVideos(db.Value(), source, target));
      if |rows| > remaining { rows := rows[..remaining]; }
      hide SourceIndexes, OldOnlyVideos, EnsureAll, IsOldOnly, IsOpen, KeysOf, Queued;
      keys := KeysOf(rows, source, target);
      KeysAreOldOnly(w, rows, source, target, excluded);
      count := EnqueueRows(source, target, model, rows);
      QueuedNow(w, db.items, source, target, rows, remaining - count);
    }

    /** Queues up to `limit` new items for old-only videos, source by source. */
    method EnqueueOldOnlyItems(target: string, model: string, excluded: set<string>, limit: nat)
      returns (count: nat, ghost keys: seq<ItemKey>)
      modifies db`items
      ensures Enqueued(old(db.Value()), db.items, keys, count, target, model, excluded) && count <= limit
      ensures forall s <- SourceIndexes(old(db.Value()), excluded) ::
        Queued(old(db.Value()), db.items, s, target, limit - count)
    {
      hide SourceIndexes, OldOnlyVideos, Enqueued, Queued, IsOpen;
      ghost var w := db.Value();
      count, keys := 0, [];
      EnqueuedNone(w, target, model, excluded);
      var left := SourceIndexes(db.Value(), excluded);
      ghost var sources := left;
      while left != {} && count < limit
        invariant left <= sources && count <= limit
        invariant Enqueued(w, db.items, keys, count, target, model, excluded)
        invariant forall s <- sources - left :: Queued(w, db.items, s, target, limit - count)
      {
        var source :| source in left;
        ghost var before := db.Value();
        SameQueries(w, before, source, target, excluded);
        var created, more := EnqueueSource(source, target, model, excluded, limit - count);
        EnqueuedMore(w, before, db.items, keys, count, more, created, target, model, excluded);
        QueuedStays(w, before.items, db.items, sources - left, target, limit - count, limit - count - created);
        QueuedAnyway(w, before, db.items, source, target, limit - count - created);
        keys, count, left := keys + more, count + created, left - {source};
      }
      NoRoom(w, db.items, sources, target);
      assert left == {} ==> sources - left == sources;
    }

    /** Counts the old-only videos of all sources, a video once for each source. */
    method CountOldOnlyVideos(target: string, excluded: set<string>) returns (count: nat)
      ensures count == |OldOnlyPairs(db.Value(), SourceIndexes(db.Value(), excluded), target)|
      ensures count == 0 <==> !OldOnlyLeft(db.Value(), target, excluded)
    {
      hide SourceIndexes, OldOnlyVideos, OldOnlyPairs, OldOnlyLeft;
      count := 0;
      var left := SourceIndexes(db.Value(), excluded);
      ghost var sources := left;
      NoPairs(db.Value(), target);
      assert sources - left == {};
      while left != {}
        invariant left <= sources
        invariant count == |OldOnlyPairs(db.Value(), sources - left, target)|
      {
        var source :| source in left;
        OneMoreSource(db.Value(), sources - left, source, target);
        assert sources - (left - {source}) == sources - left + {source};
        count := count + |OldOnlyVideos(db.Value(), source, target)|;
        left := left - {source};
      }
      assert sources - left == sources;
      PairsMeanLeft(db.Value(), target, excluded);
    }

    /** The gate before cutover. While it is closed, it queues items for what is left. */
    method EnsureCutoverReady(index: string, model: string, candidate: Option<string>, limit: nat)
      returns (blocked: bool, ghost keys: seq<ItemKey>, ghost count: nat)
      modifies db`items
      ensures var excluded := {index} + (if candidate.Some? then {candidate.value} else {});
        && blocked == OldOnlyLeft(old(db.Value()), index, excluded)
        && (!blocked ==> keys == [] && db.items == old(db.items))
        && count <= limit && Enqueued(old(db.Value()), db.items, keys, count, index, model, excluded)
        && (blocked && limit >= 1 ==> exists k :: IsOldOnly(old(db.Value()), k, index, excluded) && IsOpen(db.items, k))
    {
      hide OldOnlyLeft, Enqueued, SourceIndexes, OldOnlyVideos, Queued, IsOldOnly, IsOpen;
      keys, count := [], 0;
      var excluded := {index} + (if candidate.Some? then {candidate.value} else {});
      EnqueuedNone(db.Value(), index, model, excluded);
      var remaining := CountOldOnlyVideos(index, excluded);
      blocked := remaining != 0;
      if blocked {
        count, keys := EnqueueOldOnlyItems(index, model, excluded, limit);
        if limit >= 1 { SomethingIsOpen(old(db.Value()), db.items, keys, count, index, model, excluded, limit); }
      }
    }
  }
}
