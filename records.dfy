/**
 * The values that flow through ingestion: blocks (segmenter output) and chunks (chunker
 * output, the unit that is indexed). Python dictionaries become datatypes; a metadata entry
 * that may hold `None` becomes an `Option`.
 */
module Records {
  import opened Wrappers

  /**
   * A block: `{"text", "metadata": {"source", "page", "chapter", "section"}}`.
   * The end-of-page flush of `process_page` stores the raw state, so `chapter` and
   * `section` may be `None` there; every other producer stores an `int` and a `str`.
   */
  datatype Block = Block(
    text: string,
    source: string,
    page: int,
    chapter: Option<int>,
    section: Option<string>)

  /** The metadata of a semantic chunk, as `build_chunk` writes it. */
  datatype ChunkMetadata = ChunkMetadata(
    source: string,
    page: int,
    chapter: int,
    section: string,
    globalChunkId: int,
    pages: seq<string>,
    sections: seq<string>,
    chunkConfidence: real,
    /** Absent until `chunk_multiple_pdfs` stamps the document path. */
    docId: Option<string>)

  datatype Chunk = Chunk(text: string, metadata: ChunkMetadata)

  /**
   * What the vector index stores as a record's metadata: the chunk metadata plus the
   * chunk text under `chunk_text`. Search results carry it back.
   */
  datatype StoredMetadata = StoredMetadata(fields: ChunkMetadata, chunkText: string)

  /** The texts of a run of blocks, in order (`[b["text"] for b in blocks]`). */
  function BlockTexts(blocks: seq<Block>): (r: seq<string>)
    ensures |r| == |blocks| && forall k :: 0 <= k < |r| ==> r[k] == blocks[k].text
  {
    seq(|blocks|, k requires 0 <= k < |blocks| => blocks[k].text)
  }

  /** A window of `chunk_text`: `{"chunk_id", "text"}`. */
  datatype TextChunk = TextChunk(chunkId: int, text: string)

  /** A chunk of `chunk_section_blocks`: its window text and metadata with both counters. */
  datatype SectionChunk = SectionChunk(
    text: string,
    source: string,
    page: int,
    chapter: int,
    section: string,
    chunkId: int,
    globalChunkId: int)
}
