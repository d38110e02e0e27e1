/** Moving vectors between indexes: the legacy reindex worker and the re-embedding worker. */
module Reindexing {
  import opened Wrappers
  import opened SnapshotRegistry
  import opened Serving
  import opened ServingInvariant
  import opened Stores
  import opened ReindexStore
  import opened Transitions

  // ---- the embedding endpoint ----

  datatype Reply = Raised | Vectors(vectors: seq<Vector>)

  /** What the endpoint answers to the n-th call for a model and texts. */
  type Client = (string, nat, seq<string>) -> Reply

  /** A reply of the right length holds the embedding of each text at its place. */
  ghost predicate Honest(client: Client, embed: (string, string) -> Vector) {
    forall m, n, texts, i ::
      0 <= i < |texts| && client(m, n, texts).Vectors? && |client(m, n, texts).vectors| == |texts|
      ==> client(m, n, texts).vectors[i] == embed(m, texts[i])
  }

  predicate Fits(vectors: seq<Vector>, expected: Option<nat>) {
    expected.Some? ==> forall x <- vectors :: |x| == expected.value
  }

  function Dimension(catalog: map<string, CatalogRow>, index: string): Option<nat> {
    if index in catalog then Some(catalog[index].dimension) else None
  }

  /** The endpoint is up and serves the target model: every reply has the right shape. */
  ghost predicate Answers(client: Client, model: string, dimension: Option<nat>) {
    forall n, texts :: client(model, n, texts).Vectors? && |client(model, n, texts).vectors| == |texts|
      && Fits(client(model, n, texts).vectors, dimension)
  }

  /** Each vector is the embedding of its own chunk's text. */
  ghost predicate EmbedOwnTexts(
    chunks: map<nat, Chunk>, vectors: map<nat, Vector>, model: string, embed: (string, string) -> Vector)
  {
    forall c <- vectors.Keys ::
      c in chunks && chunks[c].input.Some? && vectors[c] == embed(model, chunks[c].input.value)
  }

  predicate AllFit(vectors: map<nat, Vector>, expected: Option<nat>) {
    forall c <- vectors.Keys :: expected.Some? ==> |vectors[c]| == expected.value
  }

  lemma UnionKeeps(chunks: map<nat, Chunk>, a: map<nat, Vector>, b: map<nat, Vector>, model: string,
                   embed: (string, string) -> Vector, expected: Option<nat>)
    ensures EmbedOwnTexts(chunks, a, model, embed) && EmbedOwnTexts(chunks, b, model, embed)
      ==> EmbedOwnTexts(chunks, a + b, model, embed)
    ensures AllFit(a, expected) && AllFit(b, expected) ==> AllFit(a + b, expected)
  {
  }

  lemma NoVectors(chunks: map<nat, Chunk>, model: string, embed: (string, string) -> Vector, expected: Option<nat>)
    ensures EmbedOwnTexts(chunks, map[], model, embed) && AllFit(map[], expected)
  {
  }

  predicate AreTexts(chunks: map<nat, Chunk>, chunkIds: seq<nat>, texts: seq<string>) {
    |chunkIds| == |texts|
    && forall i :: 0 <= i < |texts| ==> chunkIds[i] in chunks && chunks[chunkIds[i]].input == Some(texts[i])
  }

  predicate Distinct(s: seq<nat>) {
    forall i, j :: 0 <= i < j < |s| ==> s[i] != s[j]
  }

  lemma BatchTexts(chunks: map<nat, Chunk>, chunkIds: seq<nat>, texts: seq<string>, a: nat, b: nat)
    requires AreTexts(chunks, chunkIds, texts) && Distinct(chunkIds) && a <= b <= |chunkIds|
    ensures Distinct(chunkIds[a..b]) && AreTexts(chunks, chunkIds[a..b], texts[a..b])
    ensures Elements(chunkIds[..b]) == Elements(chunkIds[..a]) + Elements(chunkIds[a..b])
  {
    assert chunkIds[..b] == chunkIds[..a] + chunkIds[a..b];
  }

  function Texts(chunks: map<nat, Chunk>, chunkIds: seq<nat>): (texts: seq<string>)
    requires forall c <- chunkIds :: c in chunks && chunks[c].input.Some?
    ensures AreTexts(chunks, chunkIds, texts)
  {
    seq(|chunkIds|, i requires 0 <= i < |chunkIds| => chunks[chunkIds[i]].input.value)
  }

  /** The chunk is one of the video and has a vector in the index. */
  ghost predicate InIndex(w: World, v: nat, index: string, c: nat) {
    c in w.chunks && w.chunks[c].video == v && (index, c) in w.entries
  }

  lemma InIndexIff(w: World, v: nat, index: string)
    ensures forall c :: InIndex(w, v, index, c) <==> c in SourceChunks(w, v, index)
  {
  }

  /** The target index holds the video's chunks from the source index and no other chunk of the video,
      each with the vector just written for it. */
  ghost predicate Exact(before: World, after: World, key: ItemKey, vectors: map<nat, Vector>) {
    && vectors != map[]
    && (forall c :: c in vectors <==> InIndex(before, key.video, key.source, c))
    && (forall c :: c in vectors <==> InIndex(after, key.video, key.target, c))
    && forall c <- vectors.Keys :: after.entries[(key.target, c)].vector == vectors[c]
  }

  /** The video is ready and has chunks in the source index, all with text. */
  ghost predicate Embeddable(w: World, key: ItemKey) {
    && key.video in w.videos && w.videos[key.video].status == Ready
    && (exists c :: InIndex(w, key.video, key.source, c))
    && (forall c :: InIndex(w, key.video, key.source, c) ==> w.chunks[c].input.Some?)
  }

  /** Besides, none of the video's other chunks is in the target index. */
  ghost predicate CanSucceed(w: World, key: ItemKey) {
    Embeddable(w, key) && forall c :: InIndex(w, key.video, key.target, c) ==> InIndex(w, key.video, key.source, c)
  }

  /** The same in terms of the query for the video's chunks in an index. */
  lemma ConditionsIff(w: World, key: ItemKey)
    ensures var sources, targets := SourceChunks(w, key.video, key.source), SourceChunks(w, key.video, key.target);
      && (Embeddable(w, key) <==>
           && key.video in w.videos && w.videos[key.video].status == Ready && sources != {}
           && forall c <- sources :: w.chunks[c].input.Some?)
      && (CanSucceed(w, key) <==> Embeddable(w, key) && targets <= sources)
  {
    hide InIndex;
    InIndexIff(w, key.video, key.source);
    InIndexIff(w, key.video, key.target);
    if SourceChunks(w, key.video, key.source) != {} {
      var c :| c in SourceChunks(w, key.video, key.source);
      assert InIndex(w, key.video, key.source, c);
    }
  }

  lemma TargetChunksAfter(before: World, after: World, key: ItemKey, model: string, vectors: map<nat, Vector>)
    requires after.chunks == before.chunks && vectors.Keys == SourceChunks(before, key.video, key.source)
    requires after.entries == AddEntries(before.entries, key.target, key.video, model, vectors)
    ensures SourceChunks(after, key.video, key.target)
         == SourceChunks(before, key.video, key.target) + SourceChunks(before, key.video, key.source)
  {
    hide AddEntries;
  }

  /** Counting the video's vectors in the target index decides whether it holds just the source chunks. */
  lemma CountDecides(before: World, after: World, key: ItemKey, model: string, vectors: map<nat, Vector>)
    requires after.chunks == before.chunks && vectors.Keys == SourceChunks(before, key.video, key.source) != {}
    requires after.entries == AddEntries(before.entries, key.target, key.video, model, vectors)
    ensures
      var sources, targets := SourceChunks(before, key.video, key.source), SourceChunks(after, key.video, key.target);
      && (|targets| == |sources| <==> SourceChunks(before, key.video, key.target) <= sources)
      && (|targets| == |sources| ==> Exact(before, after, key, vectors))
  {
    hide AddEntries, SourceChunks, InIndex;
    var sources, targets := SourceChunks(before, key.video, key.source), SourceChunks(after, key.video, key.target);
    TargetChunksAfter(before, after, key, model, vectors);
    InIndexIff(before, key.video, key.source);
    InIndexIff(after, key.video, key.target);
    assert |targets| == |sources| + |targets - sources| by { assert targets == sources + (targets - sources); }
    assert targets - sources == SourceChunks(before, key.video, key.target) - sources;
  }

  lemma ItemsDoNotMatter(w: World, r: World, key: ItemKey)
    requires r == w.(items := r.items)
    ensures CanSucceed(r, key) == CanSucceed(w, key) && Embeddable(r, key) == Embeddable(w, key)
    ensures SourceChunks(r, key.video, key.source) == SourceChunks(w, key.video, key.source)
    ensures SourceChunks(r, key.video, key.target) == SourceChunks(w, key.video, key.target)
  {
    hide Embeddable, CanSucceed;
    ConditionsIff(w, key);
    ConditionsIff(r, key);
  }

  // ---- the reindex worker ----

  ghost function PendingKeys(items: map<ItemKey, Item>): set<ItemKey> {
    set k | k in items && items[k].status == Pending
  }

  function KeySet(keys: seq<ItemKey>): set<ItemKey> { set k | k in keys }

  ghost function WithStatus(items: map<ItemKey, Item>, keys: set<ItemKey>, status: ItemStatus): set<ItemKey> {
    set k | k in keys && k in items && items[k].status == status
  }

  /** The items that were taken have ended, and nothing else of the items has changed. */
  ghost predicate Ended(items: map<ItemKey, Item>, items': map<ItemKey, Item>, taken: set<ItemKey>) {
    && (forall k :: k in items' <==> k in items)
    && (forall k <- items.Keys :: k !in taken ==> items'[k] == items[k])
    && (forall k <- taken :: (
         && k in items' && k in items && items'[k].status in {Succeeded, Failed, Skipped}
         && items'[k].targetModel == items[k].targetModel))
  }

  lemma OneMoreEnded(
    items: map<ItemKey, Item>, now: map<ItemKey, Item>, items': map<ItemKey, Item>, taken: set<ItemKey>, key: ItemKey,
    status: ItemStatus)
    requires Ended(items, now, taken) && key in now && key !in taken && status in {Succeeded, Failed, Skipped}
    requires items' == now[key := now[key].(status := status)]
    ensures Ended(items, items', taken + {key})
  {
  }

  lemma OneMoreCounted(
    now: map<ItemKey, Item>, items': map<ItemKey, Item>, taken: set<ItemKey>, key: ItemKey, status: ItemStatus)
    requires key in now && key !in taken && items' == now[key := now[key].(status := status)]
    ensures forall st ::
      |WithStatus(items', taken + {key}, st)| == |WithStatus(now, taken, st)| + (if st == status then 1 else 0)
  {
    forall st
      ensures |WithStatus(items', taken + {key}, st)| == |WithStatus(now, taken, st)| + (if st == status then 1 else 0)
    {
      assert WithStatus(items', taken + {key}, st) == WithStatus(now, taken, st) + (if st == status then {key} else {});
    }
  }

  lemma OneMoreTaken(keys: seq<ItemKey>, i: nat)
    requires i < |keys| && forall a, b :: 0 <= a < b < |keys| ==> keys[a] != keys[b]
    ensures keys[i] !in KeySet(keys[..i]) && KeySet(keys[..i + 1]) == KeySet(keys[..i]) + {keys[i]}
  {
  }

  lemma {:induction false} KeySetSize(keys: seq<ItemKey>)
    requires forall a, b :: 0 <= a < b < |keys| ==> keys[a] != keys[b]
    ensures |KeySet(keys)| == |keys|
  {
    if keys != [] {
      OneMoreTaken(keys, |keys| - 1);
      assert keys[..|keys| - 1 + 1] == keys;
      KeySetSize(keys[..|keys| - 1]);
    }
  }

  datatype RunResult =
    | MissingRelease
    | PausedForRollback
    | Processed(enqueued: nat, succeeded: nat, failed: nat, skipped: nat)

  lemma CatalogSteps(w: World, dimension: nat) returns (steps: seq<Step>)
    ensures Run(w, steps) == CatalogRelease(w, dimension) && AllowedRun(w, steps)
  {
    steps := [CatalogStep(dimension)];
    RunOne(w, steps[0]);
  }

  lemma ReindexRun(
    w: World, before: World, steps: seq<Step>, key: ItemKey, vectors: map<nat, Vector>, status: ItemStatus)
    returns (more: seq<Step>)
    requires before == Run(w, steps) && AllowedRun(w, steps)
    requires key in before.items && vectors.Keys <= SourceChunks(before, key.video, key.source)
    ensures Run(w, more) == ReindexItem(before, key, vectors, status) && AllowedRun(w, more)
  {
    hide ReindexItem;
    var step := ReindexStep(key, vectors, status);
    more := steps + [step];
    RunOne(before, step);
    RunConcat(w, steps, [step]);
  }

  class LegacyReindexCoordinator {
    const db: Database
    const store: LegacyReindexStore
    const client: Client
    const batchSize: nat

    ghost predicate Valid() { store.db == db && batchSize >= 1 }

    constructor (db: Database, client: Client, batchSize: nat)
      requires batchSize >= 1
      ensures Valid() && this.db == db && this.client == client && this.batchSize == batchSize
    {
      this.db, this.client, this.batchSize := db, client, batchSize;
      this.store := new LegacyReindexStore(db);
    }

    /** Embeds one batch and writes its vectors, unless the reply has the wrong shape. */
    method EmbedAndUpsertBatch(key: ItemKey, model: string, batch: seq<nat>, texts: seq<string>, call: nat,
                               ghost embed: (string, string) -> Vector)
      returns (ok: bool, ghost added: map<nat, Vector>)
      requires Valid() && Distinct(batch) && AreTexts(db.chunks, batch, texts)
      modifies db`entries
      ensures db.entries == AddEntries(old(db.entries), key.target, key.video, model, added)
      ensures added.Keys == if ok then Elements(batch) else {}
      ensures Answers(client, model, Dimension(db.catalog, key.target)) ==> ok
      ensures Honest(client, embed) ==> EmbedOwnTexts(db.chunks, added, model, embed)
      ensures AllFit(added, Dimension(db.catalog, key.target))
    {
      hide AddEntries;
      added := map[];
      AddNone(db.entries, key.target, key.video, model);
      var reply := client(model, call, texts);
      if reply.Raised? { return false, added; }
      if |reply.vectors| != |batch| { return false, added; }
      if !Fits(reply.vectors, Dimension(db.catalog, key.target)) { return false, added; }
      store.UpsertReindexedVectors(key.target, key.video, model, batch, reply.vectors);
      added := Zip(batch, reply.vectors);
      forall i | 0 <= i < |batch| ensures added[batch[i]] == reply.vectors[i] { ZipAt(batch, reply.vectors, i); }
      ok := true;
    }

    /** Embeds batch by batch, up to the first batch with a bad reply. */
    method EmbedAndUpsertBatches(key: ItemKey, model: string, chunkIds: seq<nat>, texts: seq<string>,
                                 ghost embed: (string, string) -> Vector)
      returns (ok: bool, ghost vectors: map<nat, Vector>)
      requires Valid() && Distinct(chunkIds) && AreTexts(db.chunks, chunkIds, texts)
      modifies db`entries
      ensures db.entries == AddEntries(old(db.entries), key.target, key.video, model, vectors)
      ensures vectors.Keys <= Elements(chunkIds)
      ensures ok ==> vectors.Keys == Elements(chunkIds)
      ensures Answers(client, model, Dimension(db.catalog, key.target)) ==> ok
      ensures Honest(client, embed) ==> EmbedOwnTexts(db.chunks, vectors, model, embed)
      ensures AllFit(vectors, Dimension(db.catalog, key.target))
    {
      hide AddEntries, Honest, Answers, Distinct;
      vectors := map[];
      assert EmbedOwnTexts(db.chunks, vectors, model, embed);
      assert AllFit(vectors, Dimension(db.catalog, key.target));
      hide EmbedOwnTexts, AllFit, Dimension;
      AddNone(db.entries, key.target, key.video, model);
      var start, call := 0, 0;
      while start < |chunkIds|
        invariant 0 <= start <= |chunkIds|
        invariant db.entries == AddEntries(old(db.entries), key.target, key.video, model, vectors)
        invariant vectors.Keys == Elements(chunkIds[..start])
        invariant Honest(client, embed) ==> EmbedOwnTexts(db.chunks, vectors, model, embed)
        invariant AllFit(vectors, Dimension(db.catalog, key.target))
      {
        var end := if start + batchSize < |chunkIds| then start + batchSize else |chunkIds|;
        var batch := chunkIds[start..end];
        BatchTexts(db.chunks, chunkIds, texts, start, end);
        var done, added := EmbedAndUpsertBatch(key, model, batch, texts[start..end], call, embed);
        AddTwice(old(db.entries), key.target, key.video, model, vectors, added);
        if !done {
          assert vectors + added == vectors;
          return false, vectors;
        }
        UnionKeeps(db.chunks, vectors, added, model, embed, Dimension(db.catalog, key.target));
        vectors := vectors + added;
        start, call := end, call + 1;
      }
      assert chunkIds[..start] == chunkIds;
      ok := true;
    }

    /** Loads the video's chunks in the source index, or says why the item ends here. */
    method LoadReindexableVideo(key: ItemKey) returns (ended: Option<ItemStatus>, chunkIds: seq<nat>)
      ensures ended == Some(Skipped) <==> key.video in db.videos && db.videos[key.video].status != Ready
      ensures ended in {None, Some(Skipped), Some(Failed)}
      ensures ended == Some(Failed) ==> !Embeddable(db.Value(), key)
      ensures ended.None? ==>
        && key.video in db.videos && chunkIds != [] && Distinct(chunkIds)
        && |chunkIds| == |SourceChunks(db.Value(), key.video, key.source)|
        && Elements(chunkIds) == SourceChunks(db.Value(), key.video, key.source)
        && (forall c <- chunkIds :: c in db.chunks)
    {
      hide Embeddable;
      ConditionsIff(db.Value(), key);
      if key.video !in db.videos { return Some(Failed), []; }
      if db.videos[key.video].status != Ready { return Some(Skipped), []; }
      var sources: set<nat> := SourceChunks(db.Value(), key.video, key.source);
      if sources == {} { return Some(Failed), []; }
      chunkIds := Rows(sources);
      assert Elements(chunkIds) == sources;
      ended := None;
    }

    method EmbeddingTexts(chunkIds: seq<nat>) returns (texts: Option<seq<string>>)
      requires forall c <- chunkIds :: c in db.chunks
      ensures texts.Some? <==> forall c <- chunkIds :: db.chunks[c].input.Some?
      ensures texts.Some? ==> AreTexts(db.chunks, chunkIds, texts.value)
    {
      if exists c <- chunkIds :: db.chunks[c].input.None? { return None; }
      texts := Some(Texts(db.chunks, chunkIds));
    }

    /** The work on one item up to its final status. */
    method Attempt(key: ItemKey, model: string, ghost embed: (string, string) -> Vector)
      returns (status: ItemStatus, ghost vectors: map<nat, Vector>)
      requires Valid()
      modifies db`entries
      ensures db.entries == AddEntries(old(db.entries), key.target, key.video, model, vectors)
      ensures vectors.Keys <= SourceChunks(old(db.Value()), key.video, key.source)
      ensures AllFit(vectors, Dimension(db.catalog, key.target))
      ensures Honest(client, embed) ==> EmbedOwnTexts(db.chunks, vectors, model, embed)
      ensures status in {Succeeded, Failed, Skipped}
      ensures status == Skipped <==> key.video in db.videos && db.videos[key.video].status != Ready
      ensures status == Succeeded ==> Exact(old(db.Value()), db.Value(), key, vectors)
      ensures Answers(client, model, Dimension(db.catalog, key.target)) && Embeddable(old(db.Value()), key) ==>
        vectors.Keys == SourceChunks(old(db.Value()), key.video, key.source)
      ensures Answers(client, model, Dimension(db.catalog, key.target)) ==>
        (status == Succeeded <==> CanSucceed(old(db.Value()), key))
    {
      hide AddEntries, SourceChunks, Honest, Answers, Exact, EmbedOwnTexts, Embeddable, CanSucceed, AllFit, Dimension;
      ghost var w := db.Value();
      ConditionsIff(w, key);
      NoVectors(db.chunks, model, embed, Dimension(db.catalog, key.target));
      vectors := map[];
      AddNone(db.entries, key.target, key.video, model);
      var ended, chunkIds := LoadReindexableVideo(key);
      if ended.Some? { return ended.value, vectors; }
      var texts := EmbeddingTexts(chunkIds);
      assert texts.Some? == forall c <- SourceChunks(w, key.video, key.source) :: w.chunks[c].input.Some?;
      if texts.None? { return Failed, vectors; }
      var ok;
      ok, vectors := EmbedAndUpsertBatches(key, model, chunkIds, texts.value, embed);
      if !ok { return Failed, vectors; }
      CountDecides(w, db.Value(), key, model, vectors);
      var targetCount := store.TargetVectorCount(key);
      if targetCount != |chunkIds| { return Failed, vectors; }
      status := Succeeded;
    }

    /** Processes one item. Whatever the outcome, the tables change as in one reindex step. */
    method ProcessItem(key: ItemKey, ghost embed: (string, string) -> Vector)
      returns (status: ItemStatus, ghost vectors: map<nat, Vector>)
      requires Valid() && key in db.items
      modifies db`items, db`entries
      ensures db.Value() == ReindexItem(old(db.Value()), key, vectors, status) && db.items.Keys == old(db.items).Keys
      ensures vectors.Keys <= SourceChunks(old(db.Value()), key.video, key.source)
      ensures AllFit(vectors, Dimension(db.catalog, key.target))
      ensures Honest(client, embed) ==> EmbedOwnTexts(db.chunks, vectors, old(db.items)[key].targetModel, embed)
      ensures status in {Succeeded, Failed, Skipped}
      ensures status == Skipped <==> key.video in db.videos && db.videos[key.video].status != Ready
      ensures status == Succeeded ==> Exact(old(db.Value()), db.Value(), key, vectors)
      ensures
        var answers := Answers(client, old(db.items)[key].targetModel, Dimension(db.catalog, key.target));
        answers && Embeddable(old(db.Value()), key) ==>
          vectors.Keys == SourceChunks(old(db.Value()), key.video, key.source)
      ensures Answers(client, old(db.items)[key].targetModel, Dimension(db.catalog, key.target)) ==>
        (status == Succeeded <==> CanSucceed(old(db.Value()), key))
    {
      hide AddEntries, SourceChunks, CanSucceed, Embeddable, Honest, Answers, AllFit, Dimension, EmbedOwnTexts;
      var model := db.items[key].targetModel;
      store.Mark(key, Running);
      ItemsDoNotMatter(old(db.Value()), db.Value(), key);
      status, vectors := Attempt(key, model, embed);
      ghost var attempted := db.Value();
      store.Mark(key, status);
      ItemsDoNotMatter(attempted, db.Value(), key);
    }

    method UpsertIndex(index: string, model: string, dimension: nat)
      modifies db`catalog
      ensures db.catalog == CatalogIndex(old(db.catalog), index, model, dimension)
    {
      if index !in db.catalog {
        db.catalog := db.catalog[index := CatalogRow(model, dimension, false)];
      } else {
        db.catalog := db.catalog[index := db.catalog[index].(model := model, dimension := dimension)];
      }
    }

    method EnsureCatalogForRelease(dimension: nat)
      requires db.release.Some?
      modifies db`catalog
      ensures db.Value() == CatalogRelease(old(db.Value()), dimension)
    {
      var r := db.release.value;
      UpsertIndex(r.activeIndex, r.activeModel, dimension);
      if r.previousIndex.Some? && r.previousModel.Some? {
        UpsertIndex(r.previousIndex.value, r.previousModel.value, dimension);
      }
      if r.candidateIndex.Some? && r.candidateModel.Some? {
        UpsertIndex(r.candidateIndex.value, r.candidateModel.value, dimension);
      }
    }

    /** As many pending items as the limit allows, each once. */
    method PendingItems(limit: nat) returns (keys: seq<ItemKey>)
      ensures forall k <- keys :: k in db.items && db.items[k].status == Pending
      ensures forall a, b :: 0 <= a < b < |keys| ==> keys[a] != keys[b]
      ensures |keys| == Min(limit, |PendingKeys(db.items)|)
    {
      var rows := Rows(set k | k in db.items && db.items[k].status == Pending);
      assert PendingKeys(db.items) == set k | k in db.items && db.items[k].status == Pending;
      keys := if |rows| > limit then rows[..limit] else rows;
      assert forall k <- keys :: k in rows;
    }

    method ProcessItems(
      keys: seq<ItemKey>, ghost embed: (string, string) -> Vector, ghost w: World, ghost before: seq<Step>)
      returns (succeeded: nat, failed: nat, skipped: nat, ghost steps: seq<Step>)
      requires Valid() && forall k <- keys :: k in db.items
      requires forall a, b :: 0 <= a < b < |keys| ==> keys[a] != keys[b]
      requires db.Value() == Run(w, before) && AllowedRun(w, before)
      modifies db`items, db`entries
      ensures db.Value() == Run(w, steps) && AllowedRun(w, steps)
      ensures Ended(old(db.items), db.items, KeySet(keys)) && succeeded + failed + skipped == |keys|
      ensures succeeded == |WithStatus(db.items, KeySet(keys), Succeeded)|
      ensures failed == |WithStatus(db.items, KeySet(keys), Failed)|
      ensures skipped == |WithStatus(db.items, KeySet(keys), Skipped)|
    {
      hide ReindexItem, Run, AllowedRun, SourceChunks, Exact, CanSucceed, EmbedOwnTexts, AllFit, Ended, WithStatus;
      hide KeySet, Embeddable, Answers, Honest, Dimension;
      steps := before;
      succeeded, failed, skipped := 0, 0, 0;
      NothingEnded(db.items, keys);
      for i := 0 to |keys|
        invariant db.Value() == Run(w, steps) && AllowedRun(w, steps)
        invariant forall k <- keys :: k in db.items
        invariant Ended(old(db.items), db.items, KeySet(keys[..i])) && succeeded + failed + skipped == i
        invariant succeeded == |WithStatus(db.items, KeySet(keys[..i]), Succeeded)|
        invariant failed == |WithStatus(db.items, KeySet(keys[..i]), Failed)|
        invariant skipped == |WithStatus(db.items, KeySet(keys[..i]), Skipped)|
      {
        ghost var now := db.Value();
        OneMoreTaken(keys, i);
        var status, vectors := ProcessItem(keys[i], embed);
        steps := ReindexRun(w, now, steps, keys[i], vectors, status);
        ItemsAfter(now, keys[i], vectors, status);
        OneMoreEnded(old(db.items), now.items, db.items, KeySet(keys[..i]), keys[i], status);
        OneMoreCounted(now.items, db.items, KeySet(keys[..i]), keys[i], status);
        if status == Succeeded {
          succeeded := succeeded + 1;
        } else if status == Skipped {
          skipped := skipped + 1;
        } else {
          failed := failed + 1;
        }
      }
      assert keys[..|keys|] == keys;
    }

    /** Works on as many pending items as the limit allows. */
    method ProcessPending(limit: nat, ghost embed: (string, string) -> Vector, ghost w: World, ghost before: seq<Step>)
      returns (succeeded: nat, failed: nat, skipped: nat, ghost steps: seq<Step>, ghost taken: set<ItemKey>)
      requires Valid() && db.Value() == Run(w, before) && AllowedRun(w, before)
      modifies db`items, db`entries
      ensures db.Value() == Run(w, steps) && AllowedRun(w, steps)
      ensures taken <= PendingKeys(old(db.items)) && |taken| == Min(limit, |PendingKeys(old(db.items))|)
      ensures Ended(old(db.items), db.items, taken) && succeeded + failed + skipped == |taken|
      ensures succeeded == |WithStatus(db.items, taken, Succeeded)|
      ensures failed == |WithStatus(db.items, taken, Failed)|
      ensures skipped == |WithStatus(db.items, taken, Skipped)|
      ensures |PendingKeys(old(db.items))| <= limit ==> PendingKeys(db.items) == {}
    {
      hide Run, AllowedRun, Ended, WithStatus, PendingKeys, KeySet;
      var keys := PendingItems(limit);
      taken := KeySet(keys);
      KeySetSize(keys);
      TakenArePending(db.items, keys);
      succeeded, failed, skipped, steps := ProcessItems(keys, embed, w, before);
      NothingPending(old(db.items), db.items, taken);
    }

    /** One pass of the worker is a run of allowed steps of the protocol. It queues items, and then works on as many
        pending ones as the limit allows: each of these ends, and no other item changes. So nothing is pending after
        a pass unless more items than the limit were. */
    method RunOnce(dimension: Option<nat>, limit: nat, ghost embed: (string, string) -> Vector)
      returns (result: RunResult, ghost steps: seq<Step>, ghost queued: map<ItemKey, Item>, ghost taken: set<ItemKey>)
      requires Valid()
      modifies db`catalog, db`items, db`entries
      ensures db.Value() == Run(old(db.Value()), steps) && AllowedRun(old(db.Value()), steps)
      ensures result.MissingRelease? <==> db.release.None?
      ensures result.PausedForRollback? <==> (db.release.Some?
        && (db.release.value.status == RollbackPreparing || ExcludedProjects(old(db.Value())) != {}))
      ensures !result.Processed? ==> db.Value() == old(db.Value())
      ensures result.Processed? ==>
        && |queued| == |old(db.items)| + result.enqueued && result.enqueued <= limit
        && (forall k :: IsOpen(old(db.items), k) ==> IsOpen(queued, k))
      ensures result.Processed? ==>
        var (r, x) := (db.release.value,
          if dimension.Some? then CatalogRelease(old(db.Value()), dimension.value) else old(db.Value()));
        forall s <- SourceIndexes(x, ExcludedIndexes(r)) ::
          Queued(x, queued, s, r.activeIndex, limit - result.enqueued)
      ensures result.Processed? ==>
        && taken <= PendingKeys(queued) && |taken| == Min(limit, |PendingKeys(queued)|)
        && Ended(queued, db.items, taken)
        && result.succeeded == |WithStatus(db.items, taken, Succeeded)|
        && result.failed == |WithStatus(db.items, taken, Failed)|
        && result.skipped == |WithStatus(db.items, taken, Skipped)|
        && result.succeeded + result.failed + result.skipped == |taken|
      ensures result.Processed? && |PendingKeys(queued)| <= limit ==> PendingKeys(db.items) == {}
    {
      hide Run, AllowedRun, ExcludedProjects, EnsureAll, IsOldOnly, IsOpen, Queued, CatalogRelease, Ended, WithStatus;
      hide PendingKeys, SourceIndexes, EnqueueSteps;
      ghost var w := db.Value();
      steps, queued, taken := [], db.items, {};
      RunNothing(w);
      if db.release.None? { return RunResult.MissingRelease, steps, queued, taken; }
      if db.release.value.status == RollbackPreparing || ExcludedProjects(db.Value()) != {} {
        return PausedForRollback, steps, queued, taken;
      }
      if dimension.Some? {
        EnsureCatalogForRelease(dimension.value);
        steps := CatalogSteps(w, dimension.value);
      }
      var release := db.release.value;
      ghost var catalogued := db.Value();
      var enqueued, enqueuedKeys := store.EnqueueOldOnlyItems(
        release.activeIndex, release.activeModel, ExcludedIndexes(release), limit);
      EnqueueRun(catalogued, enqueuedKeys);
      RunConcat(w, steps, EnqueueSteps(enqueuedKeys));
      steps := steps + EnqueueSteps(enqueuedKeys);
      queued := db.items;
      var succeeded, failed, skipped;
      succeeded, failed, skipped, steps, taken := ProcessPending(limit, embed, w, steps);
      result := Processed(enqueued, succeeded, failed, skipped);
    }
  }

  lemma NothingEnded(items: map<ItemKey, Item>, keys: seq<ItemKey>)
    ensures Ended(items, items, KeySet(keys[..0])) && forall st :: WithStatus(items, KeySet(keys[..0]), st) == {}
  {
  }

  lemma ItemsAfter(w: World, key: ItemKey, vectors: map<nat, Vector>, status: ItemStatus)
    requires key in w.items
    ensures ReindexItem(w, key, vectors, status).items == w.items[key := w.items[key].(status := status)]
  {
    hide AddEntries;
  }

  lemma TakenArePending(items: map<ItemKey, Item>, keys: seq<ItemKey>)
    requires forall k <- keys :: k in items && items[k].status == Pending
    ensures KeySet(keys) <= PendingKeys(items)
  {
  }

  lemma NothingPending(items: map<ItemKey, Item>, items': map<ItemKey, Item>, taken: set<ItemKey>)
    requires Ended(items, items', taken) && taken <= PendingKeys(items)
    ensures |taken| == |PendingKeys(items)| ==> PendingKeys(items') == {}
  {
    SubsetSize(taken, PendingKeys(items));
    assert PendingKeys(items') == PendingKeys(items) - taken;
  }

  // ---- an item that fails although its vectors are all there ----

  /** After a first cutover, with chunk 1 of a ready video in the old index. */
  function OneGeneration(): World {
    World(
      Some(Release(Stable, "m1", "new", Some("m0"), Some("old"), None, None, None, None, Some(1))),
      [Snapshot(0, "m0", "old", PreviousStable, None, 0), Snapshot(1, "m1", "new", Active, Some(0), 1)], map[],
      map["old" := CatalogRow("m0", 1, false)], map[], map[0 := Video(None, Ready)],
      map[1 := Chunk(0, "s", "m0", Some("text"))], map[("old", 1) := Entry(0, "m0", [])], map[], map[], {})
  }

  /** The video was ingested again: its chunk 2 is in the new index, and chunk 1 is queued for it. */
  function TwoGenerations(): World {
    OneGeneration().(
      chunks := map[1 := Chunk(0, "s", "m0", Some("text")), 2 := Chunk(0, "s", "m1", Some("text"))],
      entries := map[("old", 1) := Entry(0, "m0", []), ("new", 2) := Entry(0, "m1", [])],
      items := map[ItemKey(0, "old", "new") := Item(Pending, "m1")])
  }

  function Reingest(): seq<Step> {
    [LoadTargetStep(0, 0), PersistStep(0, "s", Input(), Vector2()), EnqueueStep(0, "old")]
  }

  lemma OneGenerationIsSound()
    ensures Inv(OneGeneration())
  {
    hide IsStack, Stack;
    OneGenerationIsStack();
  }

  lemma OneGenerationIsStack()
    ensures var rows := OneGeneration().snapshots;
      IsStack(rows) && Stack(rows) == [rows[0].(status := Superseded), rows[1].(status := Superseded)]
  {
    hide Live;
    LiveAll(OneGeneration().snapshots);
    assert Live(OneGeneration().snapshots) == [0, 1];
  }

  function Input(): map<nat, Option<string>> { map[2 := Some("text")] }
  function Vector2(): map<nat, Vector> { map[2 := []] }

  lemma Stored()
    ensures Persist(LoadTarget(OneGeneration(), 0, 0), 0, "s", Input(), Vector2()) == TwoGenerations().(items := map[])
  {
    hide AddEntries, WithoutChunks, ReplaceChunks, SameVersionChunks, OneGeneration, TwoGenerations, Input, Vector2;
    OneGenerationFacts();
    StoredParts(LoadTarget(OneGeneration(), 0, 0));
    assert map[0 := Video(None, Ready)][0 := Video(None, Ready)] == map[0 := Video(None, Ready)];
  }

  lemma StoringIsAllowed()
    ensures Allowed(LoadTarget(OneGeneration(), 0, 0), PersistStep(0, "s", Input(), Vector2()))
  {
    assert Input().Keys == {2} == Vector2().Keys;
  }

  lemma OneGenerationFacts()
    ensures var w := OneGeneration();
      && w.release.Some? && w.release.value.status == Stable && w.release.value.activeIndex == "new"
      && w.release.value.activeModel == "m1" && w.jobs == map[] && w.videos == map[0 := Video(None, Ready)]
      && 2 !in w.chunks && Input().Keys != {}
    ensures TwoGenerations().(items := map[]) ==
      OneGeneration().(chunks := TwoGenerations().chunks, entries := TwoGenerations().entries)
  {
    assert 2 in Input();
  }

  lemma StoredParts(w: World)
    requires w.chunks == OneGeneration().chunks && w.entries == OneGeneration().entries
    ensures SameVersionChunks(w, 0, "s", "m1") == {}
    ensures ReplaceChunks(w.chunks, {}, 0, "s", "m1", Input()) == TwoGenerations().chunks
    ensures AddEntries(WithoutChunks(w.entries, {}), "new", 0, "m1", Vector2()) == TwoGenerations().entries
  {
    hide ReplaceChunks, AddEntries, WithoutChunks, TwoGenerations, Input;
    StoredChunks();
    StoredEntries();
  }

  lemma StoredChunks()
    ensures ReplaceChunks(OneGeneration().chunks, {}, 0, "s", "m1", Input()) == TwoGenerations().chunks
  {
    hide ReplaceChunks;
  }

  lemma StoredEntries()
    ensures AddEntries(WithoutChunks(OneGeneration().entries, {}), "new", 0, "m1", Vector2())
      == TwoGenerations().entries
  {
    hide AddEntries, WithoutChunks;
    var kept := WithoutChunks(OneGeneration().entries, {});
    assert kept == OneGeneration().entries;
    assert AddEntries(kept, "new", 0, "m1", Vector2()).Keys == TwoGenerations().entries.Keys;
  }

  lemma Queues()
    ensures EnqueueItem(TwoGenerations().(items := map[]), 0, "old") == TwoGenerations()
  {
    var w := TwoGenerations().(items := map[]);
    assert ("old", 1) in w.entries;
    assert 0 in OldOnlyVideos(w, "old", "new");
  }

  lemma ReingestRuns()
    ensures Run(OneGeneration(), Reingest()) == TwoGenerations() && AllowedRun(OneGeneration(), Reingest())
  {
    hide Persist, EnqueueItem, OneGeneration, TwoGenerations, Input, Vector2;
    Stored();
    StoringIsAllowed();
    Queues();
    var w, steps := OneGeneration(), Reingest();
    RunOne(w, steps[0]);
    RunExtend(w, [steps[0]], steps[1]);
    RunExtend(w, [steps[0]] + [steps[1]], steps[2]);
    assert steps == [steps[0]] + [steps[1]] + [steps[2]];
  }

  function EmptyVectors(n: nat): (r: seq<Vector>)
    ensures |r| == n
  {
    seq(n, _ => [])
  }

  function Answering(): Client { (m, n, texts) => Vectors(EmptyVectors(|texts|)) }

  lemma TwoGenerationsFacts()
    ensures var w, key := TwoGenerations(), ItemKey(0, "old", "new");
      && Answers(Answering(), "m1", Dimension(w.catalog, "new"))
      && key in w.items && w.items[key].targetModel == "m1" && w.videos.Keys == {0} && w.videos[0].status == Ready
      && SourceChunks(w, 0, "old") == {1} && 2 in SourceChunks(w, 0, "new")
      && Embeddable(w, key) && !CanSucceed(w, key)
      && (forall s <- SourceIndexes(w, {"new"}) :: s == "old")
      && 0 in OldOnlyVideos(w, "old", "new")
  {
    var w := TwoGenerations();
    assert SourceChunks(w, 0, "old") == {1};
    assert ("old", 1) in w.entries;
    ConditionsIff(w, ItemKey(0, "old", "new"));
  }

  /** In a run from a sound start, the item's one missing vector is written and the gate opens, but the item ends
      failed: the count finds the other chunk too. */
  method ItemBesideOtherChunkFails() returns (status: ItemStatus, db: Database, ghost steps: seq<Step>)
    ensures Inv(OneGeneration()) && AllowedRun(OneGeneration(), steps)
    ensures status == Failed && fresh(db) && db.Value() == Run(OneGeneration(), steps)
    ensures ("new", 1) in db.entries && !OldOnlyLeft(db.Value(), "new", {"new"})
  {
    hide Answers, Honest, Embeddable, CanSucceed, Inv, Run, AllowedRun, OneGeneration, TwoGenerations, OldOnlyVideos;
    hide Dimension, AllFit, Exact, SourceChunks, EmbedOwnTexts;
    var key := ItemKey(0, "old", "new");
    OneGenerationIsSound();
    ReingestRuns();
    TwoGenerationsFacts();
    db := new Database(TwoGenerations());
    var coordinator := new LegacyReindexCoordinator(db, Answering(), 8);
    ghost var vectors;
    status, vectors := coordinator.ProcessItem(key, (m, t) => []);
    steps := ReindexRun(OneGeneration(), TwoGenerations(), Reingest(), key, vectors, status);
    assert vectors.Keys == {1};
    OneWritten(vectors, status);
  }

  lemma OneWritten(vectors: map<nat, Vector>, status: ItemStatus)
    requires vectors.Keys == {1}
    ensures var x := ReindexItem(TwoGenerations(), ItemKey(0, "old", "new"), vectors, status);
      ("new", 1) in x.entries && !OldOnlyLeft(x, "new", {"new"})
  {
    hide AddEntries;
    var x := ReindexItem(TwoGenerations(), ItemKey(0, "old", "new"), vectors, status);
    forall s | s in SourceIndexes(x, {"new"}) ensures OldOnlyVideos(x, s, "new") == {} {
      assert s == "old";
    }
  }
}
