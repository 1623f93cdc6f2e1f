# A verified model of the PDF ingestion and retrieval core

This project models, in Dafny, the part of a retrieval-augmented question-answering service
that turns PDF page text into indexed chunks and turns ranked search hits into an answer
context. The model covers five pieces.

- **Segmentation** (`pdfreader.py`). It detects running headers and footers. It classifies
  lines as figure and table captions, `CHAPTER n` lines, numbered section headings
  (`2.3 Title`) and body text. It scans the first six pages into section blocks, carrying
  chapter and section state from page to page. When no heading is found it falls back to
  paragraph blocks, then to overlapping 180-word windows.
- **Chunking** (`pdfreader.py`).
  - `chunk_text` makes word windows.
  - `chunk_section_blocks` numbers those windows across blocks.
  - `semantic_chunk_blocks` is the greedy grouper. It closes a group on a topic shift or
    at the token ceiling, and keeps a running-mean centroid.
  - `build_chunk` writes the chunk metadata.
  - `chunk_multiple_pdfs` stamps every chunk with its document.
- **Helpers** (`utils.py`): `update_centroid`, the batching loop of `embed_batch` and
  `safe_int`.
- **Indexing** (`embeddings.py`). `index_chunks` skips chunks whose id is below the
  namespace's vector count. It slices the rest into batches of 96 and builds one record
  per chunk: the id, dense and sparse values, and the metadata plus the chunk text.
- **Answering** (`retrieval.py`, `answering.py`).
  - `assemble_chunks` keeps the leading hits above a fraction of the top score, capped at
    one or `max_chunks`.
  - `needs_global_context` tests a query for aggregation keywords.
  - `format_citations` renders each distinct `(section, page)` pair once.

The model has these modules:
- `Text`: the Python `str` operations used: `isspace`, `strip`, `split`, `splitlines`,
  `join`, `lower`, `str(int)` and `int(str)`.
- `StrOrder`: the ordering `sorted` uses on strings.
- `Seqs`: slicing, batching and windows.
- `Records`: blocks and chunks as datatypes.
- One module each for `Utils`, `Normalizer` (the line classifiers and boilerplate
  detection), `Segmenter`, `Chunker`, `Grouping`, `Embeddings`, `Retrieval` and
  `Answering`.

The loops of the source are methods. Each method is proved equal to a specification
function, and the properties the code promises are proved about those functions as
lemmas. `process_page` updates a shared state dictionary, which becomes the class
`Segmenter.PageState`. Its method `ProcessPage` modifies that object.

External services are function parameters: `embed`, `denseOf` and `sparseOf` for the
embedding service, `sim` for cosine similarity, and `pagesOf` for PDF text extraction.
The upserts that `index_chunks` would send are returned in order instead.

## Model

| member | source | states |
|---|---|---|
| Text.StripTrimmed | pdfreader.py:17 | stripping a string that has no surrounding whitespace leaves it unchanged |
| Text.StripIdempotent | pdfreader.py:33 | `strip` applied twice equals `strip` applied once |
| Text.Words | pdfreader.py:151 | every piece `split()` returns is a non-empty run of non-whitespace characters |
| Text.WordsOfJoin | pdfreader.py:160 | splitting text joined with a whitespace separator gives the words of every piece, in order |
| Text.SplitJoinRoundTrip | pdfreader.py:151-160 | joining words with one space and splitting again gives back the same words |
| Text.WordsOfAllWords | pdfreader.py:151-160 | the words of a list of words are that list |
| Text.JoinWordsTrimmed | pdfreader.py:213-214 | words joined by spaces have no surrounding whitespace, and are non-empty when there is at least one word |
| Text.StrippedLines | pdfreader.py:17 | every line kept by `[l.strip() for l in text.splitlines() if l.strip()]` is non-empty and stripped |
| Text.SplitLines | pdfreader.py:17 | no line returned by `splitlines` contains a line-break character |
| Text.StrippedLinesOfLine | pdfreader.py:17 | a stripped, non-empty text without line breaks is one line |
| Text.SplitBlankLines | pdfreader.py:126 | `split("\n\n")` returns at least one piece |
| Text.NatToString | pdfreader.py:306 | the decimal form of a natural number is digits only, with no leading zero |
| Text.DecimalRoundTrip | pdfreader.py:306 | reading back the decimal form of a natural number gives the number |
| Text.ParseIntRoundTrip | utils.py:51-55 | `int(str(i)) == i` for every integer |
| Text.SignedRoundTrip | utils.py:51-55 | the signed-digit reader inverts `str` on every integer |
| Text.IntToStringInjective | embeddings.py:64 | different integers print differently |
| StrOrder.LessIrreflexive | pdfreader.py:305-313 | no string sorts before itself |
| StrOrder.LessTransitive | pdfreader.py:305-313 | the string order is transitive |
| StrOrder.LessTotal | pdfreader.py:305-313 | any two different strings are ordered one way or the other |
| StrOrder.SortedSet | pdfreader.py:305-313 | `sorted(set(xs))` is strictly increasing and holds exactly the elements of `xs` |
| StrOrder.SortedUnique | pdfreader.py:305-313 | two strictly sorted lists with the same elements are equal, so the sorted set is determined by its elements |
| StrOrder.TextualOrder | pdfreader.py:305-306 | page numbers sort as text: `"10"` comes before `"2"` |
| Utils.UpdateCentroid | utils.py:25-29 | the updated centroid has the old centroid's dimension |
| Utils.IncrementalMean | utils.py:25-29 | updating the mean of `n` vectors with a new vector and count `n` gives the mean of all `n + 1` vectors |
| Utils.MeanOfOne | utils.py:25-29 | the mean of one vector is that vector, which is how a group starts |
| Utils.CentroidFixpoint | utils.py:25-29 | adding a copy of the centroid leaves it unchanged |
| Utils.RunningCentroidIsMean | utils.py:25-29 | folding `update_centroid` over vectors with counts 1, 2, ... gives their arithmetic mean |
| Utils.EmbedBatch | utils.py:31-50 | the result is the embeddings of each batch `texts[i:i+batch_size]` in order; a negative batch size gives nothing |
| Utils.BatchSizeInvisible | utils.py:31-50 | with a one-vector-per-text embedding, batching gives exactly one vector per text in text order, whatever the batch size |
| Utils.SafeInt | utils.py:51-55 | integers pass through, floats truncate toward zero, booleans give 0 or 1, a string `int` accepts gives exactly its value and any other string the default, and `None` or a value of another type gives the default |
| Utils.SafeIntOfPaddedString | utils.py:53-55 | `safe_int(" +007 ") == 7`, as `int` allows surrounding whitespace, a sign and leading zeros, while `safe_int("4x", d) == d` |
| Utils.SafeIntOfFloatAndBool | utils.py:53 | `safe_int(3.9) == 3`, `safe_int(-3.9) == -3`, `safe_int(True) == 1` |
| Utils.SafeIntBasics | utils.py:51-55 | integers pass through and `None` yields the default |
| Utils.SafeIntOfDecimal | utils.py:51-55 | a decimal string converts to its value, not to the default |
| Seqs.Batches | embeddings.py:28-29 | every batch of `range(0, n, size)` is non-empty and at most `size` long, and all but the last are full |
| Seqs.BatchesCover | embeddings.py:28-29 | the batches concatenate back to the list: nothing is dropped, repeated or reordered |
| Seqs.BatchAt | embeddings.py:28-29 | batch `k` is the slice `xs[k*size : k*size+size]` |
| Seqs.WindowsCount | pdfreader.py:158-172 | the number of windows a `while start < len(words)` loop makes when advancing by `step` |
| Seqs.WindowAt | pdfreader.py:209-221 | window `k` starts inside the list at `from + k * step` and is the slice `xs[start:start + size]` |
| Normalizer.DetectBoilerplateLines | pdfreader.py:10-27 | the loop collects exactly the first and last three stripped lines of every page with text, and keeps the frequent ones |
| Normalizer.EdgeCountIsCounterValue | pdfreader.py:21 | the `Counter` value of a line is the number of times it occurs among the page edges |
| Normalizer.BoilerplateCharacterization | pdfreader.py:21-27 | a line is boilerplate exactly when its edge count is at least 60% of the page count (pages without text count in the denominator) |
| Normalizer.BoilerplateIsStripped | pdfreader.py:17-19 | every boilerplate line is non-empty and stripped |
| Normalizer.RunningHeaderIsBoilerplate | pdfreader.py:13-27 | a first line repeated on every page is detected as boilerplate |
| Normalizer.SinglePageEdgesAreBoilerplate | pdfreader.py:18-27 | in a one-page document, every header or footer line counts as boilerplate |
| Normalizer.NormalizeBullet | pdfreader.py:31-33 | the result has no surrounding whitespace |
| Normalizer.NormalizePlainLine | pdfreader.py:31-33 | a stripped line that does not start with a bullet glyph is unchanged |
| Normalizer.LeftoverBullet | pdfreader.py:33 | only the leading run of glyphs is removed: in `"• •text"` the second bullet survives |
| Normalizer.IsFigureOrTable | pdfreader.py:36-37 | a caption line starts with "figure" or "table" in any case, and later has a digit right after whitespace |
| Normalizer.FigureCaption | pdfreader.py:36-37 | "Figure" or "Table" in any case, then whitespace, then a digit, is a caption whatever follows |
| Normalizer.GluedNumberIsNoCaption | pdfreader.py:36-37 | "Figure" followed directly by a non-space character is not a caption, since `\s+` needs at least one space |
| Normalizer.DigitEnd | pdfreader.py:48 | the digit run starting at `i` is all digits and ends at a non-digit or at the end |
| Normalizer.ChapterNumber | pdfreader.py:47-49 | a chapter number is only found on a line starting with "chapter" in any case, and it is the value of a digit run that follows whitespace |
| Normalizer.ChapterLineNumber | pdfreader.py:47-49 | "chapter" in any case, whitespace and a number yields that number, whatever follows a non-digit |
| Normalizer.LongestDotted | pdfreader.py:41 | the longest prefix matching `\d+(\.\d+)+` up to a bound, or none |
| Normalizer.SectionHeading | pdfreader.py:40-44 | a heading is found exactly when a proper prefix is a dotted number; the label is the longest such prefix, a space, and the stripped rest |
| Normalizer.HeadingAt | pdfreader.py:40-44 | the longest dotted prefix that leaves at least one character determines the label |
| Normalizer.NoHeading | pdfreader.py:40-44 | a line with no dotted-number prefix is not a heading |
| Normalizer.NumberedTitleIsHeading | pdfreader.py:40-44 | `"<dotted number> <stripped title>"` is a heading labelled with itself |
| Normalizer.HeadingBacktracks | pdfreader.py:41-43 | the regex backtracks so that `.+` matches: `"1.23"` is labelled `"1.2 3"` |
| Normalizer.UndottedNumberIsNoHeading | pdfreader.py:41 | digits without a following dot group are not a heading |
| Normalizer.ShouldMerge | pdfreader.py:52-55 | a merged line starts with neither whitespace nor a digit, and a line ending in `.` never takes a continuation |
| Normalizer.ShouldMergeByLastChar | pdfreader.py:52-55 | a line joins the previous one exactly when the previous line does not end in `.`, `?` or `!` and the line starts with a lower-case letter |
| Segmenter.PageState.constructor | pdfreader.py:181 | the state starts with no chapter, no section and no heading found |
| Segmenter.WithoutBoilerplate | pdfreader.py:63 | the kept lines are lines of the page and none of them is boilerplate |
| Segmenter.ProcessPage | pdfreader.py:57-115 | the page's blocks and the updated state are those of the line-by-line scan, started from the old state |
| Segmenter.ScanLinesAppend | pdfreader.py:69-102 | scanning two runs of lines equals scanning the second from where the first ended |
| Segmenter.ScanProvenance | pdfreader.py:79-113 | the scan only appends blocks, and each appended block carries this page's source and number |
| Segmenter.ScanKeepsWords | pdfreader.py:69-113 | no body word is lost or reordered: the words of the blocks and buffer are the words of the content lines |
| Segmenter.PageBlocksContent | pdfreader.py:57-115 | the words of a page's blocks are exactly the words of its body lines, and every block cites this page |
| Segmenter.LastChapterLine | pdfreader.py:73-76 | the chapter after a scan is the last `CHAPTER n` line seen |
| Segmenter.ChapterKept | pdfreader.py:73-76 | without a chapter line the chapter carries over unchanged |
| Segmenter.LastHeadingLine | pdfreader.py:78-95 | after a heading the section is its label and a heading counts as found; a non-empty buffer is flushed under the previous chapter and section, defaulting to -1 and "unknown" |
| Segmenter.SectionKept | pdfreader.py:78-95 | without a heading line the section and the found flag carry over |
| Segmenter.PageWithoutBody | pdfreader.py:58-60 | a page with no body lines yields no blocks and leaves the state unchanged |
| Segmenter.ProcessPdf | pdfreader.py:177-197 | the blocks and found flag are those of scanning the first six pages (indexes 0 to 5) with one shared state |
| Segmenter.PageFound | pdfreader.py:78-95 | after a page the found flag holds exactly when it held before or the page has a heading line |
| Segmenter.FoundIffHeading | pdfreader.py:177-197 | `found_section` holds exactly when one of the scanned pages contains a heading line |
| Segmenter.Paragraphs | pdfreader.py:124-128 | every kept paragraph is stripped and longer than 40 characters |
| Segmenter.ParagraphBlocks | pdfreader.py:116-141 | every paragraph block is stripped, longer than 40 characters, from a page between 1 and `n`, with chapter -1 and section "unknown", and blocks come in page order |
| Segmenter.ParagraphBlocksStep | pdfreader.py:119-139 | page `i + 1` appends exactly the blocks of its own kept paragraphs, labelled with page `i + 1`, or nothing when it has no text |
| Segmenter.ParagraphBlocksProvenance | pdfreader.py:119-139 | every paragraph block holds a kept paragraph of the very page its `page` field names |
| Segmenter.ParagraphBlocksFromPages | pdfreader.py:116-141 | the loop produces exactly the paragraph blocks of all pages |
| Segmenter.FixedSizeBlocks | pdfreader.py:142-174 | the loop produces exactly one block per 150-word stride of the document's words |
| Segmenter.FixedBlocksShape | pdfreader.py:142-174 | there are no blocks exactly when there are no words; block `k` holds the words `150k .. 150k+180` and the blocks cover every word |
| Segmenter.FixedBlockAt | pdfreader.py:158-172 | the words of block `k` are the document's words from `150k`, at most 180 of them |
| Segmenter.PdfToChunks | pdfreader.py:332-347 | the returned blocks are the selection among the three segmentations |
| Segmenter.FallbackChoice | pdfreader.py:345 | section blocks (even an empty list) exactly when a heading occurs on the first six pages; otherwise paragraph blocks if there are any; otherwise fixed windows |
| Chunker.ChunkText | pdfreader.py:198-223 | the loop produces exactly the numbered non-empty window texts of the text's words |
| Chunker.ChunkWords | pdfreader.py:206-223 | the windowing loop over a word list produces exactly the numbered non-empty window texts |
| Chunker.WindowTextsTrimmed | pdfreader.py:213-214 | every kept window text is non-empty and stripped |
| Chunker.TextChunksKept | pdfreader.py:198-223 | every chunk's text is non-empty and stripped, and chunk ids are 0, 1, 2, ... without gaps |
| Chunker.WordChunksCount | pdfreader.py:209-221 | for words from `split()` there is one chunk per window, and none exactly when there are no words |
| Chunker.WordChunkAt | pdfreader.py:209-221 | chunk `k` has id `k`; its text is window `k` joined by spaces, splits back to that window, and holds 1 to `chunk_size` words |
| Chunker.WindowsOfWords | pdfreader.py:209-211 | every window consists of words and holds at most `chunk_size` of them |
| Chunker.Numbered | pdfreader.py:214-219 | the texts are numbered consecutively from the first id |
| Chunker.BlockChunks | pdfreader.py:233-248 | each chunk of a block inherits the block's source and page, chapter defaulting to -1 and section to "unknown", with consecutive global ids |
| Chunker.ChunkSectionBlocks | pdfreader.py:224-250 | the loop produces exactly the chunks of every block in order |
| Chunker.SectionChunkIds | pdfreader.py:226-248 | global chunk ids run 0, 1, 2, ... across all blocks |
| Chunker.SectionChunksOfBlock | pdfreader.py:227-248 | the chunks of block `i` appear contiguously, right after the chunks of the blocks before it |
| Chunker.SectionChunksPrefix | pdfreader.py:227-248 | the chunks of a prefix of the blocks are a prefix of all chunks |
| Chunker.SectionStrings | pdfreader.py:310-313 | the string sections collected are exactly the sections some block has |
| Chunker.BuildChunk | pdfreader.py:301-329 | the chunk carries the given global id and no document id, its page and section lists are strictly sorted, and its confidence is positive |
| Chunker.BuildChunkMetadata | pdfreader.py:301-329 | the metadata comes from the first block with defaults -1 and "unknown"; `pages` and `sections` are the sorted distinct page strings and section names of all blocks; confidence is blocks/5 |
| Chunker.BuildChunkWords | pdfreader.py:302 | the chunk text holds exactly the words of its blocks in order, and its word count is the sum of theirs |
| Grouping.Zip | pdfreader.py:269 | `zip` stops at the shorter list and pairs blocks with embeddings by position |
| Grouping.Group | pdfreader.py:269-295 | the open group is empty only before the first block |
| Grouping.AllGroupsPartition | pdfreader.py:258-298 | the groups are non-empty and concatenate back to the input blocks, in order; no blocks, no groups |
| Grouping.AllGroupsCeiling | pdfreader.py:281-283 | every group of two or more blocks fits the token ceiling; only a single oversized block exceeds it |
| Grouping.AllGroupsRule | pdfreader.py:279-295 | each group was closed exactly when the next block met the close rule, and no block inside a group did |
| Grouping.BelowMinimum | pdfreader.py:281-283 | the token ceiling closes a group even when it is below the minimum size |
| Grouping.StartGroup | pdfreader.py:272-277 | a new group's centroid is its block's embedding and its tokens are that block's word count |
| Grouping.MergeGroup | pdfreader.py:291-295 | merging a block appends it, adds its tokens, and gives the running-mean centroid of the group |
| Grouping.SemanticChunksIds | pdfreader.py:284-298 | one chunk per group, built from the group's blocks, with ids 0, 1, 2, ...; no blocks, no chunks |
| Grouping.SemanticChunksCover | pdfreader.py:266-269 | with one embedding per text, every block is paired and the groups cover every block exactly once |
| Grouping.GroupPairs | pdfreader.py:258-300 | the loop's chunks are those of the greedy grouping, its running tokens and centroid tracking the group's word count and mean |
| Grouping.SemanticChunkBlocks | pdfreader.py:251-300 | the chunks are those of grouping the blocks with their batched embeddings |
| Grouping.Stamp | pdfreader.py:361-362 | every chunk gets the document's path as `doc_id`; text and other metadata are unchanged |
| Grouping.StampDocId | pdfreader.py:361-362 | the stamping loop produces the stamped chunks |
| Grouping.ChunkMultiplePdfs | pdfreader.py:353-366 | the result is every document's stamped chunks, document after document |
| Grouping.DocumentChunkIds | pdfreader.py:263-298 | within one document the global chunk ids are 0, 1, 2, ... |
| Grouping.DocumentChunksNonEmpty | pdfreader.py:297-298 | a document yields chunks exactly when segmentation yields blocks |
| Grouping.AllStampedDocIds | pdfreader.py:356-364 | every chunk of the result carries the path of one of the input documents |
| Grouping.IdsRestartPerDocument | pdfreader.py:353-366 | the global chunk ids restart at 0 for every document, so ids are not unique across documents |
| Embeddings.ChunksToIndexMembers | embeddings.py:23-26 | a chunk is indexed exactly when it is one of the chunks and its id is at least the indexed count |
| Embeddings.ChunksToIndexAppend | embeddings.py:23-26 | the filter distributes over concatenation, so it keeps the original order |
| Embeddings.ChunksToIndexAll | embeddings.py:23-26 | when every id is at least the indexed count, every chunk is indexed |
| Embeddings.ChunksToIndexNone | embeddings.py:23-26 | when every id is below the indexed count, nothing is indexed |
| Embeddings.NewDocumentSkipped | embeddings.py:20-26 | a new document with no more chunks than the namespace already holds is skipped entirely, because its ids restart at 0 |
| Embeddings.RecordRoundTrip | embeddings.py:63-74 | a record gives back its chunk's text and metadata, its id parses to the global chunk id, and it carries the given embeddings |
| Embeddings.RecordIdsDistinct | embeddings.py:64 | chunks with different global ids get different record ids |
| Embeddings.RecordsOf | embeddings.py:62-74 | one record per position of `zip(batch, dense, sparse)`, stopping at the shortest list |
| Embeddings.BuildRecords | embeddings.py:60-74 | the record-building loop produces the zipped records |
| Embeddings.ChunkTexts | embeddings.py:34 | one text per chunk of the batch, in order |
| Embeddings.EmbedAndBuild | embeddings.py:34-74 | a batch's records are built from the dense and sparse embeddings of its texts |
| Embeddings.IndexChunks | embeddings.py:14-80 | the upserts are those of every batch of the filtered chunks, in order; a negative batch size upserts nothing |
| Embeddings.UpsertedRecords | embeddings.py:28-80 | with one embedding per text, the upserted records concatenate to one record per chunk in order, and each upsert has 1 to `batch_size` records |
| Embeddings.IndexedRecords | embeddings.py:14-80 | every selected chunk is upserted exactly once, in order, and nothing is upserted when none is selected |
| Embeddings.BatchRecordsPerText | embeddings.py:34-74 | with one embedding per text, a batch's records are the per-chunk records |
| Retrieval.LeadingAbove | retrieval.py:80-83 | the count of leading hits at or above the threshold; the next hit, if any, is below it |
| Retrieval.Cap | retrieval.py:88-93 | at most one source unless multi-section, otherwise `max_chunks` (at least one is always kept before the check) |
| Retrieval.AssembleChunks | retrieval.py:62-95 | the text and sources are those of the leading hits kept by the cutoff and the cap |
| Retrieval.AssembledShape | retrieval.py:62-95 | no hits give `("", [])`; sources are a prefix of the hits' metadata; no hit below the cutoff is kept, nor anything after it; at most one or `max_chunks` sources; the text is the stripped kept texts joined by newlines |
| Retrieval.TopHitKept | retrieval.py:78-86 | a non-negative top score with a ratio of at most 1 keeps at least the top hit |
| Retrieval.NegativeTopDropped | retrieval.py:82-83 | a negative top score drops every hit, including the top one |
| Retrieval.CutoffStops | retrieval.py:80-83 | scores 0.9, 0.5, 0.3 with ratio 0.6 keep only the first hit, since the cutoff stops at the first weak hit |
| Retrieval.AnyTermIn | retrieval.py:117 | true exactly when one of the terms occurs in the query |
| Retrieval.NeedsGlobalContext | retrieval.py:97-117 | true exactly when the lower-cased query contains one of the thirteen terms |
| Retrieval.NeedsGlobalContextIgnoresCase | retrieval.py:98 | the test ignores the query's letter case |
| Retrieval.NeedsGlobalContextExamples | retrieval.py:101-117 | any query containing "Why" needs global context, and the empty query does not |
| Answering.FormatCitations | answering.py:9-21 | the loop renders each metadata entry whose `(section, page)` key has not been seen before |
| Answering.Citations | answering.py:9-21 | one citation per first occurrence of a key, rendered in order |
| Answering.FirstsDistinct | answering.py:14-16 | the cited entries have pairwise distinct keys |
| Answering.FirstsKeySet | answering.py:13-19 | every key of the sources is cited, and there are as many citations as distinct keys |
| Answering.CitationsPrefix | answering.py:13-19 | more sources only append citations |
| Answering.CitationsFromSources | answering.py:17-19 | every citation is `"<section> (page <page>)"` of some source |
| Answering.CitationsDistinct | answering.py:14-19 | no citation string appears twice |
| Answering.RenderInjective | answering.py:18 | two entries render the same exactly when their keys agree |
| Answering.CitationsExample | answering.py:9-21 | `[a, a, b]` with different keys gives `["Intro (page 1)", "Methods (page 2)"]` |

## Left out

- PDF text extraction (`PdfReader`, `page.extract_text()`). Page texts are inputs, with ""
  for a page without text.
- Unicode NFKC normalisation in `normalize_bullet` is treated as the identity.
- `str.lower`, `str.islower` and `\d` are ASCII-only here. Non-ASCII letters and digits are
  not modelled.
- Regular expressions are not modelled as an engine. Each pattern is a grammar predicate
  that picks the same match.
- Cosine similarity and the embedding and vector-index services are function parameters.
  Vectors are `seq<real>`, so floating-point rounding is not modelled.
- Chunker.BuildChunkMetadata: `chunk_confidence` is `len(blocks) / 5` exactly. The rounding
  to two decimals is not modelled, because the ratio is a real number here.
- `get_indexed_ids` is represented by the `vectorCount` value passed to `IndexChunks`.
  Namespace statistics are not modelled.
- The `if not batch: continue` and `if not texts: continue` guards in `index_chunks` can
  never fire, because every batch of `range` is non-empty. They have no counterpart.
- `hybrid_search` (`retrieval.py`), `rewrite_with_llm` and the prompt assembly
  (`answering.py`), the HTTP server, download, storage and ingestion orchestration files
  are not part of this model.
- `pinecone_embed`, `embed_one` and `cosine_similarity` in `utils.py` are not part of this
  model, beyond being parameters.
- Text.ParseInt: the underscore digit separators that Python's `int` accepts are rejected
  here.
- Text.SplitLines: `\r\n` counts as two line breaks, producing an extra empty line. Every
  caller drops empty lines, so its results match `splitlines`.
- Utils.EmbedBatch: a batch size of 0, where `range` raises, is excluded by `requires`
  rather than modelled as an error. A negative batch size is modelled and yields nothing.
- Embeddings.IndexChunks: a batch size of 0 is excluded the same way.
- Chunker.ChunkText: when `chunk_size <= overlap` and the text has words, the source loop
  never terminates. The model requires `chunk_size > overlap` or no words.
- Grouping.SemanticChunkBlocks: a batch size of 0 is excluded as for `embed_batch`.
- In-place updates of the buffers and lists (`buffer[-1] += ...`, `list.append`,
  `metadata["doc_id"] = ...`) are modelled as updates of sequence values. Aliasing between
  chunk dictionaries is not modelled; only the `process_page` state is an object.
- Grouping.SemanticChunkBlocks: the embedding service is assumed to return vectors of
  exactly 1024 entries, the index dimension fixed at pinecone_client.py:13. The `np.dot`
  error that `cosine_similarity` raises on vectors of different lengths is not modelled.
- Grouping.ChunkMultiplePdfs: the same 1024-entry assumption on the embedding service.
- Grouping.DocumentChunks: the same 1024-entry assumption on the embedding service.
- Embeddings.NewDocumentSkipped: the same 1024-entry assumption on the embedding service.
- Utils.SafeInt: floats are finite reals. `int(nan)` raises `ValueError`, giving the
  default, and `int(inf)` raises an `OverflowError` that `safe_int` does not catch. Neither
  case is modelled.
- Utils.UpdateCentroid: a `new_emb` shorter than the centroid and `n == -1` are excluded
  by `requires`. The source raises `IndexError` and `ZeroDivisionError` there.
