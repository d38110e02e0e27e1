/** The re-embedding worker: all chunks of one video into one index, or nothing. */
module VideoReembed {
  import opened Wrappers
  import opened Serving
  import opened Stores
  import opened ReindexStore
  import opened Reindexing

  datatype ReembedError = VideoNotFound | NoUsableText | BadReply

  /** When a request succeeds, given an endpoint that answers. */
  predicate Reembeddable(w: World, v: nat) {
    v in w.videos && forall c <- ChunksOf(w, v) :: w.chunks[c].input.Some?
  }

  lemma PrefixElements(chunkIds: seq<nat>, n: nat)
    requires n <= |chunkIds|
    ensures Elements(chunkIds[..n]) <= Elements(chunkIds) && Elements(chunkIds[..0]) == {}
  {
  }

  class VideoReembedService {
    const db: Database
    const store: LegacyReindexStore
    const client: Client
    const batchSize: nat

    ghost predicate Valid() { store.db == db && batchSize >= 1 }

    constructor (db: Database, client: Client, batchSize: nat)
      requires batchSize >= 1
      ensures Valid() && this.db == db && this.client == client && this.batchSize == batchSize
    {
      this.db, this.client, this.batchSize := db, client, batchSize;
      this.store := new LegacyReindexStore(db);
    }

    method EmbedAndUpsertBatch(q: Reembedding, batch: seq<nat>, texts: seq<string>, call: nat,
                               ghost embed: (string, string) -> Vector)
      returns (upserted: Result<nat, ReembedError>, ghost added: map<nat, Vector>)
      requires Valid() && Distinct(batch) && AreTexts(db.chunks, batch, texts)
      modifies db`entries
      ensures db.entries == AddEntries(old(db.entries), q.index, q.video, q.model, added)
      ensures upserted == Success(|batch|) || upserted == Failure(BadReply)
      ensures added.Keys == if upserted.Success? then Elements(batch) else {}
      ensures Answers(client, q.model, Dimension(db.catalog, q.index)) ==> upserted.Success?
      ensures Honest(client, embed) ==> EmbedOwnTexts(db.chunks, added, q.model, embed)
      ensures AllFit(added, Dimension(db.catalog, q.index))
    {
      hide AddEntries;
      added := map[];
      AddNone(db.entries, q.index, q.video, q.model);
      var reply := client(q.model, call, texts);
      if reply.Raised? || |reply.vectors| != |batch| || !Fits(reply.vectors, Dimension(db.catalog, q.index)) {
        return Failure(BadReply), added;
      }
      store.UpsertReindexedVectors(q.index, q.video, q.model, batch, reply.vectors);
      added := Zip(batch, reply.vectors);
      forall i | 0 <= i < |batch| ensures added[batch[i]] == reply.vectors[i] { ZipAt(batch, reply.vectors, i); }
      upserted := Success(|batch|);
    }

    method EmbedAndUpsertBatches(
      q: Reembedding, chunkIds: seq<nat>, texts: seq<string>, ghost embed: (string, string) -> Vector)
      returns (upserted: Result<nat, ReembedError>, ghost vectors: map<nat, Vector>)
      requires Valid() && Distinct(chunkIds) && AreTexts(db.chunks, chunkIds, texts)
      modifies db`entries
      ensures db.entries == AddEntries(old(db.entries), q.index, q.video, q.model, vectors)
      ensures upserted == Success(|chunkIds|) || upserted == Failure(BadReply)
      ensures vectors.Keys <= Elements(chunkIds) && (upserted.Success? ==> vectors.Keys == Elements(chunkIds))
      ensures Answers(client, q.model, Dimension(db.catalog, q.index)) ==> upserted.Success?
      ensures Honest(client, embed) ==> EmbedOwnTexts(db.chunks, vectors, q.model, embed)
      ensures AllFit(vectors, Dimension(db.catalog, q.index))
    {
      hide AddEntries, Honest, Answers, EmbedOwnTexts, AllFit, Dimension, Distinct, Elements;
      PrefixElements(chunkIds, 0);
      vectors := map[];
      AddNone(db.entries, q.index, q.video, q.model);
      NoVectors(db.chunks, q.model, embed, Dimension(db.catalog, q.index));
      var start, call, count := 0, 0, 0;
      while start < |chunkIds|
        invariant 0 <= start <= |chunkIds| && count == start
        invariant db.entries == AddEntries(old(db.entries), q.index, q.video, q.model, vectors)
        invariant vectors.Keys == Elements(chunkIds[..start])
        invariant Honest(client, embed) ==> EmbedOwnTexts(db.chunks, vectors, q.model, embed)
        invariant AllFit(vectors, Dimension(db.catalog, q.index))
      {
        var end := if start + batchSize < |chunkIds| then start + batchSize else |chunkIds|;
        BatchTexts(db.chunks, chunkIds, texts, start, end);
        var done, added := EmbedAndUpsertBatch(q, chunkIds[start..end], texts[start..end], call, embed);
        AddTwice(old(db.entries), q.index, q.video, q.model, vectors, added);
        if done.Failure? {
          assert vectors + added == vectors;
          PrefixElements(chunkIds, start);
          return Failure(BadReply), vectors;
        }
        UnionKeeps(db.chunks, vectors, added, q.model, embed, Dimension(db.catalog, q.index));
        vectors := vectors + added;
        start, call, count := end, call + 1, count + done.value;
      }
      assert chunkIds[..start] == chunkIds;
      upserted := Success(count);
    }

    /** Embeds the video's chunks. A failure leaves the batches before it written. */
    method ReembedVideo(q: Reembedding, ghost embed: (string, string) -> Vector)
      returns (upserted: Result<nat, ReembedError>, ghost vectors: map<nat, Vector>)
      requires Valid()
      modifies db`entries
      ensures db.entries == AddEntries(old(db.entries), q.index, q.video, q.model, vectors)
      ensures upserted.Success? ==>
        && q.video in db.videos && vectors.Keys == ChunksOf(old(db.Value()), q.video)
        && upserted.value == |ChunksOf(old(db.Value()), q.video)|
      ensures upserted.Failure? ==> (upserted.error == VideoNotFound <==> q.video !in db.videos)
      ensures Answers(client, q.model, Dimension(db.catalog, q.index)) ==>
        (upserted.Success? <==> Reembeddable(old(db.Value()), q.video))
      ensures Honest(client, embed) ==> EmbedOwnTexts(db.chunks, vectors, q.model, embed)
      ensures AllFit(vectors, Dimension(db.catalog, q.index))
    {
      hide AddEntries, Honest, Answers, EmbedOwnTexts, AllFit, Dimension;
      vectors := map[];
      AddNone(db.entries, q.index, q.video, q.model);
      NoVectors(db.chunks, q.model, embed, Dimension(db.catalog, q.index));
      if q.video !in db.videos { return Failure(VideoNotFound), vectors; }
      var chunkSet: set<nat> := ChunksOf(db.Value(), q.video);
      var chunkIds := Rows(chunkSet);
      assert Elements(chunkIds) == chunkSet;
      if chunkIds == [] { return Success(0), vectors; }
      if exists c <- chunkIds :: db.chunks[c].input.None? { return Failure(NoUsableText), vectors; }
      upserted, vectors := EmbedAndUpsertBatches(q, chunkIds, Texts(db.chunks, chunkIds), embed);
    }

    /** The worker commits only after the whole video: a failed request changes nothing, and a successful
        one embeds every chunk. */
    method Handle(q: Reembedding, ghost embed: (string, string) -> Vector)
      returns (upserted: Result<nat, ReembedError>, ghost vectors: map<nat, Vector>)
      requires Valid()
      modifies db`entries
      ensures upserted.Failure? ==> db.Value() == old(db.Value())
      ensures upserted.Success? ==>
        && db.Value() == Reembed(old(db.Value()), q, vectors)
        && vectors.Keys == ChunksOf(old(db.Value()), q.video)
        && AllFit(vectors, Dimension(db.catalog, q.index))
        && (Honest(client, embed) ==> EmbedOwnTexts(db.chunks, vectors, q.model, embed))
      ensures Answers(client, q.model, Dimension(db.catalog, q.index)) ==>
        (upserted.Success? <==> Reembeddable(old(db.Value()), q.video))
    {
      hide AddEntries, Honest, Answers, EmbedOwnTexts, AllFit, Dimension;
      var committed := db.entries;
      upserted, vectors := ReembedVideo(q, embed);
      if upserted.Failure? { db.entries := committed; }
    }
  }
}
