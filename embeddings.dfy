/**
 * embeddings.py: the indexing side of `index_chunks`. A re-ingestion guard keeps the chunks
 * whose `global_chunk_id` is at least the number of vectors already in the namespace; those
 * are cut into batches, and each batch becomes one upsert of records carrying a dense and a
 * sparse embedding and the chunk's metadata plus its text. The embedding service and the
 * index are parameters: `denseOf` and `sparseOf` stand for the two `pc.inference.embed` calls
 * and the method returns the upserts, in order, instead of sending them.
 */
module Embeddings {
  import opened Wrappers
  import opened Seqs
  import opened Text
  import opened Records
  import opened Utils
  import opened Segmenter
  import opened Grouping

  // ---------------------------------------------------------------- the re-ingestion guard

  /** The guard's test: `safe_int(metadata["global_chunk_id"]) >= indexed_count`. */
  predicate Selected(c: Chunk, indexedCount: int) {
    SafeInt(IntValue(c.metadata.globalChunkId)) >= indexedCount
  }

  /** `chunks_to_index`: the selected chunks, in their original order. */
  function ChunksToIndex(chunks: seq<Chunk>, indexedCount: int): (r: seq<Chunk>)
    ensures |r| <= |chunks|
  {
    if chunks == [] then []
    else
      var c := chunks[|chunks| - 1];
      ChunksToIndex(chunks[..|chunks| - 1], indexedCount) + (if Selected(c, indexedCount) then [c] else [])
  }

  /** A chunk is indexed exactly when it is one of the chunks and passes the guard. */
  lemma {:induction false} ChunksToIndexMembers(chunks: seq<Chunk>, indexedCount: int)
    ensures forall c :: c in ChunksToIndex(chunks, indexedCount) <==> c in chunks && Selected(c, indexedCount)
  {
    if chunks != [] {
      var init, c := chunks[..|chunks| - 1], chunks[|chunks| - 1];
      ChunksToIndexMembers(init, indexedCount);
      assert chunks == init + [c];
    }
  }

  /** The filter keeps order: filtering a concatenation concatenates the filtered parts. */
  lemma {:induction false} ChunksToIndexAppend(a: seq<Chunk>, b: seq<Chunk>, indexedCount: int)
    ensures ChunksToIndex(a + b, indexedCount) == ChunksToIndex(a, indexedCount) + ChunksToIndex(b, indexedCount)
    decreases |b|
  {
    if b == [] {
      assert a + b == a;
    } else {
      var init := b[..|b| - 1];
      assert (a + b)[..|a + b| - 1] == a + init;
      ChunksToIndexAppend(a, init, indexedCount);
    }
  }

  /** When every id reaches the count (a count of 0 and non-negative ids), every chunk is kept. */
  lemma {:induction false} ChunksToIndexAll(chunks: seq<Chunk>, indexedCount: int)
    requires forall k :: 0 <= k < |chunks| ==> chunks[k].metadata.globalChunkId >= indexedCount
    ensures ChunksToIndex(chunks, indexedCount) == chunks
  {
    if chunks != [] {
      ChunksToIndexAll(chunks[..|chunks| - 1], indexedCount);
    }
  }

  /** When the count exceeds every id, nothing is kept. */
  lemma {:induction false} ChunksToIndexNone(chunks: seq<Chunk>, indexedCount: int)
    requires forall k :: 0 <= k < |chunks| ==> chunks[k].metadata.globalChunkId < indexedCount
    ensures ChunksToIndex(chunks, indexedCount) == []
  {
    if chunks != [] {
      ChunksToIndexNone(chunks[..|chunks| - 1], indexedCount);
    }
  }

  /**
   * Ids restart at 0 for every document while the count covers the whole namespace: a new
   * document with no more chunks than the vectors already indexed is skipped entirely.
   */
  lemma {:induction false} NewDocumentSkipped(path: string, pages: seq<string>, embed: seq<string> -> seq<Vector>,
                           sim: (Vector, Vector) -> real, indexedCount: int)
    requires forall ts :: HasDim(embed(ts), EmbeddingDim)
    requires |DocumentChunks(path, pages, embed, sim)| <= indexedCount
    ensures ChunksToIndex(Stamp(DocumentChunks(path, pages, embed, sim), path), indexedCount) == []
  {
    var doc := DocumentChunks(path, pages, embed, sim);
    DocumentChunkIds(path, pages, embed, sim);
    var stamped := Stamp(doc, path);
    forall k | 0 <= k < |stamped|
      ensures stamped[k].metadata.globalChunkId < indexedCount
    {
      assert stamped[k].metadata.(docId := None).globalChunkId == doc[k].metadata.(docId := None).globalChunkId;
    }
    ChunksToIndexNone(stamped, indexedCount);
  }

  // ---------------------------------------------------------------- records

  /** `{"indices": se["sparse_indices"], "values": se["sparse_values"]}`. */
  datatype SparseValues = SparseValues(indices: seq<int>, values: seq<real>)

  /** One upserted vector: id, dense values, sparse values and metadata. */
  datatype Record = Record(id: string, values: Vector, sparseValues: SparseValues, metadata: StoredMetadata)

  /** The record of one chunk: its id printed, and its metadata extended with its text. */
  function RecordOf(c: Chunk, dense: Vector, sparse: SparseValues): Record {
    Record(IntToString(c.metadata.globalChunkId), dense, sparse, StoredMetadata(c.metadata, c.text))
  }

  /** A record gives back its chunk: the text and metadata from its metadata, the id from its id. */
  lemma {:induction false} RecordRoundTrip(c: Chunk, dense: Vector, sparse: SparseValues)
    ensures var r := RecordOf(c, dense, sparse);
      && Chunk(r.metadata.chunkText, r.metadata.fields) == c
      && ParseInt(r.id) == Some(c.metadata.globalChunkId)
      && r.values == dense && r.sparseValues == sparse
  {
    ParseIntRoundTrip(c.metadata.globalChunkId);
  }

  /** Chunks of different ids get different record ids. */
  lemma {:induction false} RecordIdsDistinct(c: Chunk, d: Chunk, dc: Vector, sc: SparseValues, dd: Vector, sd: SparseValues)
    requires c.metadata.globalChunkId != d.metadata.globalChunkId
    ensures RecordOf(c, dc, sc).id != RecordOf(d, dd, sd).id
  {
    if RecordOf(c, dc, sc).id == RecordOf(d, dd, sd).id {
      IntToStringInjective(c.metadata.globalChunkId, d.metadata.globalChunkId);
    }
  }

  /** The records of `zip(batch, dense, sparse)`, which stops at the shortest of the three. */
  function RecordsOf(batch: seq<Chunk>, dense: seq<Vector>, sparse: seq<SparseValues>): (r: seq<Record>)
    ensures |r| == Min(|batch|, Min(|dense|, |sparse|))
    ensures forall k :: 0 <= k < |r| ==> r[k] == RecordOf(batch[k], dense[k], sparse[k])
  {
    var n := Min(|batch|, Min(|dense|, |sparse|));
    seq(n, k requires 0 <= k < n => RecordOf(batch[k], dense[k], sparse[k]))
  }

  /** The record-building loop of `index_chunks`. */
  method BuildRecords(batch: seq<Chunk>, dense: seq<Vector>, sparse: seq<SparseValues>)
    returns (records: seq<Record>)
    ensures records == RecordsOf(batch, dense, sparse)
  {
    var n := Min(|batch|, Min(|dense|, |sparse|));
    records := [];
    for k := 0 to n
      invariant |records| == k
      invariant forall j :: 0 <= j < k ==> records[j] == RecordOf(batch[j], dense[j], sparse[j])
    {
      records := records + [RecordOf(batch[k], dense[k], sparse[k])];
    }
  }

  // ---------------------------------------------------------------- index_chunks

  /** `[c["text"] for c in batch]`. */
  function ChunkTexts(batch: seq<Chunk>): (r: seq<string>)
    ensures |r| == |batch| && forall k :: 0 <= k < |batch| ==> r[k] == batch[k].text
  {
    seq(|batch|, k requires 0 <= k < |batch| => batch[k].text)
  }

  /** The upsert of one batch: its texts embedded twice, then one record per chunk. */
  function BatchRecords(batch: seq<Chunk>, denseOf: seq<string> -> seq<Vector>,
                        sparseOf: seq<string> -> seq<SparseValues>): seq<Record>
  {
    RecordsOf(batch, denseOf(ChunkTexts(batch)), sparseOf(ChunkTexts(batch)))
  }

  /** The upserts of the given batches, in order. */
  function UpsertsOf(batches: seq<seq<Chunk>>, denseOf: seq<string> -> seq<Vector>,
                     sparseOf: seq<string> -> seq<SparseValues>): (r: seq<seq<Record>>)
    ensures |r| == |batches|
  {
    if batches == [] then [] else [BatchRecords(batches[0], denseOf, sparseOf)] + UpsertsOf(batches[1..], denseOf, sparseOf)
  }

  /** What `index_chunks` sends: one upsert per batch of the chunks that pass the guard. */
  function Upserts(chunks: seq<Chunk>, indexedCount: int, batchSize: nat, denseOf: seq<string> -> seq<Vector>,
                   sparseOf: seq<string> -> seq<SparseValues>): seq<seq<Record>>
    requires batchSize > 0
  {
    UpsertsOf(Batches(ChunksToIndex(chunks, indexedCount), batchSize), denseOf, sparseOf)
  }

  /**
   * `index_chunks`: `vectorCount` is what the index reports for the namespace. `range`
   * rejects a zero step and gives nothing for a negative one.
   */
  method IndexChunks(chunks: seq<Chunk>, vectorCount: Value, denseOf: seq<string> -> seq<Vector>,
                     sparseOf: seq<string> -> seq<SparseValues>, batchSize: int := 96)
    returns (upserts: seq<seq<Record>>)
    requires batchSize != 0
    ensures batchSize < 0 ==> upserts == []
    ensures batchSize > 0 ==> upserts == Upserts(chunks, SafeInt(vectorCount), batchSize, denseOf, sparseOf)
  {
    var indexedCount := SafeInt(vectorCount);
    var toIndex := ChunksToIndex(chunks, indexedCount);
    upserts := [];
    if batchSize < 0 {
      return;
    }
    ghost var spec := UpsertsOf(Batches(toIndex, batchSize), denseOf, sparseOf);
    var i := 0;
    EmptyAppend(spec);
    while i < |toIndex|
      invariant upserts + UpsertsOf(Batches(Drop(toIndex, i), batchSize), denseOf, sparseOf) == spec
      decreases |toIndex| - i
    {
      var batch := toIndex[i..if i + batchSize < |toIndex| then i + batchSize else |toIndex|];
      var records := EmbedAndBuild(batch, denseOf, sparseOf);
      UpsertStep(toIndex, batchSize, i, upserts, spec, denseOf, sparseOf);
      upserts := upserts + [records];
      i := i + batchSize;
    }
    assert Drop(toIndex, i) == [];
    AppendEmpty(upserts);
  }

  /** The body of one batch: embed the batch's texts both ways and build its records. */
  method EmbedAndBuild(batch: seq<Chunk>, denseOf: seq<string> -> seq<Vector>,
                       sparseOf: seq<string> -> seq<SparseValues>)
    returns (records: seq<Record>)
    ensures records == BatchRecords(batch, denseOf, sparseOf)
  {
    var texts := ChunkTexts(batch);
    var dense := denseOf(texts);
    var sparse := sparseOf(texts);
    records := BuildRecords(batch, dense, sparse);
  }

  /** One turn of the loop: the batch at `i` is upserted, then the batches from `i + batch_size` on. */
  lemma {:induction false} UpsertStep(toIndex: seq<Chunk>, batchSize: nat, i: nat, upserts: seq<seq<Record>>, spec: seq<seq<Record>>,
                   denseOf: seq<string> -> seq<Vector>, sparseOf: seq<string> -> seq<SparseValues>)
    requires batchSize > 0 && i < |toIndex|
    requires upserts + UpsertsOf(Batches(Drop(toIndex, i), batchSize), denseOf, sparseOf) == spec
    ensures var batch := toIndex[i..if i + batchSize < |toIndex| then i + batchSize else |toIndex|];
      (upserts + [BatchRecords(batch, denseOf, sparseOf)])
        + UpsertsOf(Batches(Drop(toIndex, i + batchSize), batchSize), denseOf, sparseOf) == spec
  {
    var batch := toIndex[i..if i + batchSize < |toIndex| then i + batchSize else |toIndex|];
    var later := Batches(Drop(toIndex, i + batchSize), batchSize);
    BatchesStep(toIndex, batchSize, i);
    assert ([batch] + later)[0] == batch;
    assert ([batch] + later)[1..] == later;
    assert UpsertsOf([batch] + later, denseOf, sparseOf)
      == [BatchRecords(batch, denseOf, sparseOf)] + UpsertsOf(later, denseOf, sparseOf);
    AppendAssoc(upserts, [BatchRecords(batch, denseOf, sparseOf)], UpsertsOf(later, denseOf, sparseOf));
  }

  // ---------------------------------------------------------------- what is upserted

  /** Embeddings that return one entry per text, the entry for `ts[k]` being `f(ts[k])`. */
  ghost predicate OnePerText<V>(embed: seq<string> -> seq<V>, f: string -> V) {
    forall ts :: |embed(ts)| == |ts| && forall k :: 0 <= k < |ts| ==> embed(ts)[k] == f(ts[k])
  }

  /** The record of every chunk in `cs`, in order. */
  function RecordsFor(cs: seq<Chunk>, dense: string -> Vector, sparse: string -> SparseValues): (r: seq<Record>)
    ensures |r| == |cs| && forall k :: 0 <= k < |cs| ==> r[k] == RecordOf(cs[k], dense(cs[k].text), sparse(cs[k].text))
  {
    seq(|cs|, k requires 0 <= k < |cs| => RecordOf(cs[k], dense(cs[k].text), sparse(cs[k].text)))
  }

  lemma {:induction false} RecordsForAppend(a: seq<Chunk>, b: seq<Chunk>, dense: string -> Vector, sparse: string -> SparseValues)
    ensures RecordsFor(a + b, dense, sparse) == RecordsFor(a, dense, sparse) + RecordsFor(b, dense, sparse)
  {
    assert forall k :: 0 <= k < |b| ==> (a + b)[|a| + k] == b[k];
  }

  lemma {:induction false} BatchRecordsPerText(batch: seq<Chunk>, denseOf: seq<string> -> seq<Vector>, sparseOf: seq<string> -> seq<SparseValues>,
                            dense: string -> Vector, sparse: string -> SparseValues)
    requires OnePerText(denseOf, dense) && OnePerText(sparseOf, sparse)
    ensures BatchRecords(batch, denseOf, sparseOf) == RecordsFor(batch, dense, sparse)
  {
    var ts := ChunkTexts(batch);
    assert |denseOf(ts)| == |ts| && |sparseOf(ts)| == |ts|;
  }

  /**
   * With embeddings that give one entry per text, the upserts together hold exactly one
   * record per selected chunk, in order; each upsert holds between one and `batchSize`
   * records.
   */
  lemma {:induction false} UpsertedRecords(xs: seq<Chunk>, batchSize: nat, denseOf: seq<string> -> seq<Vector>,
                                           sparseOf: seq<string> -> seq<SparseValues>,
                                           dense: string -> Vector, sparse: string -> SparseValues)
    requires batchSize > 0 && OnePerText(denseOf, dense) && OnePerText(sparseOf, sparse)
    ensures var us := UpsertsOf(Batches(xs, batchSize), denseOf, sparseOf);
      && Flatten(us) == RecordsFor(xs, dense, sparse)
      && forall k :: 0 <= k < |us| ==> 0 < |us[k]| <= batchSize
  {
    var bs := Batches(xs, batchSize);
    var us := UpsertsOf(bs, denseOf, sparseOf);
    forall k | 0 <= k < |us|
      ensures 0 < |us[k]| <= batchSize
    {
      UpsertAt(bs, denseOf, sparseOf, k);
      BatchRecordsPerText(bs[k], denseOf, sparseOf, dense, sparse);
    }
    UpsertsFlatten(xs, batchSize, denseOf, sparseOf, dense, sparse);
  }

  lemma {:induction false} UpsertsFlatten(xs: seq<Chunk>, batchSize: nat, denseOf: seq<string> -> seq<Vector>,
                                          sparseOf: seq<string> -> seq<SparseValues>,
                                          dense: string -> Vector, sparse: string -> SparseValues)
    requires batchSize > 0 && OnePerText(denseOf, dense) && OnePerText(sparseOf, sparse)
    ensures Flatten(UpsertsOf(Batches(xs, batchSize), denseOf, sparseOf)) == RecordsFor(xs, dense, sparse)
    decreases |xs|
  {
    var bs := Batches(xs, batchSize);
    var us := UpsertsOf(bs, denseOf, sparseOf);
    if xs == [] {
    } else if |xs| <= batchSize {
      BatchRecordsPerText(xs, denseOf, sparseOf, dense, sparse);
      assert us == [RecordsFor(xs, dense, sparse)];
      assert Flatten(us) == Flatten(us[..0]) + us[0];
    } else {
      var head, tail := xs[..batchSize], xs[batchSize..];
      UpsertsFlatten(tail, batchSize, denseOf, sparseOf, dense, sparse);
      BatchRecordsPerText(head, denseOf, sparseOf, dense, sparse);
      assert bs == [head] + Batches(tail, batchSize);
      assert us == [RecordsFor(head, dense, sparse)] + UpsertsOf(Batches(tail, batchSize), denseOf, sparseOf) by {
        assert bs[1..] == Batches(tail, batchSize);
      }
      FlattenCons(RecordsFor(head, dense, sparse), UpsertsOf(Batches(tail, batchSize), denseOf, sparseOf));
      RecordsForAppend(head, tail, dense, sparse);
      TakeDrop(xs, batchSize);
    }
  }

  lemma {:induction false} UpsertAt(bs: seq<seq<Chunk>>, denseOf: seq<string> -> seq<Vector>,
                                    sparseOf: seq<string> -> seq<SparseValues>, k: nat)
    requires k < |bs|
    ensures UpsertsOf(bs, denseOf, sparseOf)[k] == BatchRecords(bs[k], denseOf, sparseOf)
    decreases k
  {
    if k > 0 {
      UpsertAt(bs[1..], denseOf, sparseOf, k - 1);
    }
  }

  /**
   * `index_chunks` end to end: with one embedding per text, the upserted records are, in
   * order, exactly the records of the chunks that pass the guard; when no chunk passes,
   * nothing is upserted.
   */
  lemma {:induction false} IndexedRecords(chunks: seq<Chunk>, indexedCount: int, batchSize: nat, denseOf: seq<string> -> seq<Vector>,
                       sparseOf: seq<string> -> seq<SparseValues>, dense: string -> Vector, sparse: string -> SparseValues)
    requires batchSize > 0 && OnePerText(denseOf, dense) && OnePerText(sparseOf, sparse)
    ensures Flatten(Upserts(chunks, indexedCount, batchSize, denseOf, sparseOf))
      == RecordsFor(ChunksToIndex(chunks, indexedCount), dense, sparse)
    ensures ChunksToIndex(chunks, indexedCount) == [] ==> Upserts(chunks, indexedCount, batchSize, denseOf, sparseOf) == []
  {
    UpsertedRecords(ChunksToIndex(chunks, indexedCount), batchSize, denseOf, sparseOf, dense, sparse);
  }
}
