/**
 * pdfreader.py, the chunk builders: `chunk_text` (overlapping word windows of a text),
 * `chunk_section_blocks` (those windows for every block, with running ids) and
 * `build_chunk` (one retrieval chunk out of a run of blocks).
 */
module Chunker {
  import opened Wrappers
  import opened Seqs
  import opened Text
  import opened StrOrder
  import opened Records

  // ---------------------------------------------------------------- chunk_text

  /** `" ".join(chunk_words).strip()`. */
  function WindowText(w: seq<string>): string {
    Strip(Join(" ", w))
  }

  /** The stripped, `" "`-joined texts of the windows, leaving out the empty ones. */
  function WindowTexts(windows: seq<seq<string>>): seq<string> {
    if windows == [] then []
    else
      var t := WindowText(windows[0]);
      var rest := WindowTexts(windows[1..]);
      if t != "" then [t] + rest else rest
  }

  /** A chunk text `chunk_text` keeps: not empty, and stripped. */
  predicate KeptText(t: string) {
    t != "" && Trimmed(t)
  }

  /** Every window text kept is non-empty and stripped. */
  lemma {:induction false} WindowTextsTrimmed(windows: seq<seq<string>>)
    ensures forall t | t in WindowTexts(windows) :: KeptText(t)
    decreases |windows|
  {
    if windows != [] {
      var t := WindowText(windows[0]);
      var rest := WindowTexts(windows[1..]);
      WindowTextsTrimmed(windows[1..]);
      if t != "" {
        assert KeptText(t);
        assert WindowTexts(windows) == [t] + rest;
      } else {
        assert WindowTexts(windows) == rest;
      }
    }
  }

  /**
   * Every chunk `chunk_text` returns has a non-empty, stripped text, and the chunk ids
   * count 0, 1, 2, ... with no gap where an empty window was skipped.
   */
  lemma {:induction false} TextChunksKept(text: string, chunkSize: int, overlap: int)
    ensures forall c | c in TextChunks(text, chunkSize, overlap) :: KeptText(c.text)
    ensures forall k :: 0 <= k < |TextChunks(text, chunkSize, overlap)| ==> TextChunks(text, chunkSize, overlap)[k].chunkId == k
  {
    var ws := WindowsFrom(Words(text), 0, chunkSize, chunkSize - overlap);
    var ts := WindowTexts(ws);
    var r := TextChunks(text, chunkSize, overlap);
    assert r == Numbered(ts, 0);
    WindowTextsTrimmed(ws);
    forall c | c in r
      ensures KeptText(c.text)
    {
      var k :| 0 <= k < |r| && r[k] == c;
      assert c.text == ts[k] && ts[k] in ts;
    }
  }

  /** The texts numbered from `first` on. */
  function Numbered(texts: seq<string>, first: int): (r: seq<TextChunk>)
    ensures |r| == |texts|
    ensures forall k :: 0 <= k < |r| ==> r[k] == TextChunk(first + k, texts[k])
  {
    seq(|texts|, k requires 0 <= k < |texts| => TextChunk(first + k, texts[k]))
  }

  lemma {:induction false} NumberedCons(t: string, rest: seq<string>, first: int)
    ensures Numbered([t] + rest, first) == [TextChunk(first, t)] + Numbered(rest, first + 1)
  {
  }

  /**
   * The chunks of the word list `words`: window starts `chunk_size - overlap` apart,
   * empty window texts left out, ids from 0.
   */
  function WordChunks(words: seq<string>, chunkSize: int, overlap: int): seq<TextChunk> {
    Numbered(WindowTexts(WindowsFrom(words, 0, chunkSize, chunkSize - overlap)), 0)
  }

  /** What `chunk_text(text, chunk_size, overlap)` returns. */
  function TextChunks(text: string, chunkSize: int, overlap: int): seq<TextChunk> {
    WordChunks(Words(text), chunkSize, overlap)
  }

  /**
   * `chunk_text`: splits the text into words and cuts them into windows. With at least one
   * word and `chunk_size <= overlap` the Python loop never ends; callers do not pass that.
   */
  method ChunkText(text: string, chunkSize: int := 180, overlap: int := 30) returns (chunks: seq<TextChunk>)
    requires chunkSize > overlap || Words(text) == []
    ensures chunks == TextChunks(text, chunkSize, overlap)
  {
    var words := Words(text);
    chunks := ChunkWords(words, chunkSize, overlap);
  }

  /**
   * The loop of `chunk_text` over `text.split()`: each window of `chunk_size` words with
   * non-empty text becomes a chunk with the next `chunk_id`.
   */
  method ChunkWords(words: seq<string>, chunkSize: int, overlap: int) returns (chunks: seq<TextChunk>)
    requires chunkSize > overlap || words == []
    ensures chunks == WordChunks(words, chunkSize, overlap)
  {
    var step := chunkSize - overlap;
    ghost var ws := WindowsFrom(words, 0, chunkSize, step);
    ghost var texts := TextsOf(ws);
    ghost var stride: nat := if step > 0 then step else 1;
    ghost var spec := ChunksOf(texts, 0);
    chunks := [];
    var start: nat := 0;
    var chunkId := 0;
    ghost var i: nat := 0;
    EmptyAppend(spec);
    while start < |words|
      invariant i <= |ws| && start == StartOf(0, stride, i)
      invariant chunkId == |chunks|
      invariant chunks + ChunksOf(texts[i..], chunkId) == spec
      decreases |words| - start
    {
      assert stride == step;
      var chunkText := WindowTextAt(words, start, chunkSize, stride, i, texts);
      WindowStep(texts, i, chunks, chunkId, spec);
      if chunkText != "" {
        chunks := chunks + [TextChunk(chunkId, chunkText)];
        chunkId := chunkId + 1;
      }
      StartOfSucc(0, stride, i);
      start, i := start + step, i + 1;
    }
    if words != [] {
      WindowIndex(words, chunkSize, stride, i);
    }
    assert texts[i..] == [];
    AppendEmpty(chunks);
    ChunksOfIs(ws, 0);
  }

  /**
   * `" ".join(words[start:start + chunk_size]).strip()` for the window at `start`, which is
   * window `i` of the loop: its entry in `texts`.
   */
  method WindowTextAt(words: seq<string>, start: nat, size: int, ghost step: nat, ghost i: nat, ghost texts: seq<string>)
    returns (t: string)
    requires step > 0 && start == StartOf(0, step, i) && start < |words|
    requires texts == TextsOf(WindowsFrom(words, 0, size, step)) && i <= |texts|
    ensures i < |texts| && t == texts[i]
  {
    WindowIndex(words, size, step, i);
    TextsOfAt(WindowsFrom(words, 0, size, step), i);
    t := WindowText(PySlice(words, start, start + size));
  }

  /** The text of every window, empty ones included. */
  function TextsOf(ws: seq<seq<string>>): (r: seq<string>)
    ensures |r| == |ws|
  {
    if ws == [] then [] else [WindowText(ws[0])] + TextsOf(ws[1..])
  }

  lemma {:induction false} TextsOfAt(ws: seq<seq<string>>, k: nat)
    requires k < |ws|
    ensures TextsOf(ws)[k] == WindowText(ws[k])
  {
    if k > 0 {
      TextsOfAt(ws[1..], k - 1);
    }
  }

  /** The chunks of the window texts `texts`, ids from `id`: the loop of `chunk_text` as a recursion. */
  function ChunksOf(texts: seq<string>, id: int): seq<TextChunk> {
    if texts == [] then []
    else if texts[0] != "" then [TextChunk(id, texts[0])] + ChunksOf(texts[1..], id + 1)
    else ChunksOf(texts[1..], id)
  }

  lemma {:induction false} ChunksOfCons(t: string, rest: seq<string>, id: int)
    ensures ChunksOf([t] + rest, id) == if t != "" then [TextChunk(id, t)] + ChunksOf(rest, id + 1) else ChunksOf(rest, id)
  {
    assert ([t] + rest)[0] == t;
    assert ([t] + rest)[1..] == rest;
  }

  /** One turn of the loop: window `i` is kept exactly when its text is not empty. */
  lemma {:induction false} WindowStep(texts: seq<string>, i: nat, chunks: seq<TextChunk>, chunkId: int, spec: seq<TextChunk>)
    requires i < |texts|
    requires chunks + ChunksOf(texts[i..], chunkId) == spec
    ensures if texts[i] != "" then (chunks + [TextChunk(chunkId, texts[i])]) + ChunksOf(texts[i + 1..], chunkId + 1) == spec
      else chunks + ChunksOf(texts[i + 1..], chunkId) == spec
  {
    SuffixCons(texts, i);
    ChunksOfCons(texts[i], texts[i + 1..], chunkId);
    AppendAssoc(chunks, [TextChunk(chunkId, texts[i])], ChunksOf(texts[i + 1..], chunkId + 1));
  }

  /** The recursion numbers the non-empty window texts. */
  lemma {:induction false} ChunksOfIs(ws: seq<seq<string>>, id: int)
    ensures ChunksOf(TextsOf(ws), id) == Numbered(WindowTexts(ws), id)
  {
    if ws != [] {
      if WindowText(ws[0]) != "" {
        ChunksOfIs(ws[1..], id + 1);
      } else {
        ChunksOfIs(ws[1..], id);
      }
      ChunksOfIsStep(ws, id);
    }
  }

  /** The step of `ChunksOfIs`: the equation for `ws` follows from the one for its tail. */
  lemma {:induction false} ChunksOfIsStep(ws: seq<seq<string>>, id: int)
    requires ws != []
    requires var next := if WindowText(ws[0]) != "" then id + 1 else id;
      ChunksOf(TextsOf(ws[1..]), next) == Numbered(WindowTexts(ws[1..]), next)
    ensures ChunksOf(TextsOf(ws), id) == Numbered(WindowTexts(ws), id)
  {
    var t := WindowText(ws[0]);
    var rest := WindowTexts(ws[1..]);
    assert TextsOf(ws) == [t] + TextsOf(ws[1..]);
    ChunksOfCons(t, TextsOf(ws[1..]), id);
    if t != "" {
      assert WindowTexts(ws) == [t] + rest;
      NumberedCons(t, rest, id);
    } else {
      assert WindowTexts(ws) == rest;
    }
  }

  /** Every window is a non-empty list of words. */
  predicate WordWindows(ws: seq<seq<string>>) {
    forall k :: 0 <= k < |ws| ==> ws[k] != [] && forall j :: 0 <= j < |ws[k]| ==> IsWord(ws[k][j])
  }

  /** With every window holding at least one word, no window is dropped. */
  lemma {:induction false} WindowTextsOfWords(ws: seq<seq<string>>)
    requires WordWindows(ws)
    ensures var r := WindowTexts(ws);
      |r| == |ws| && forall k :: 0 <= k < |r| ==> r[k] == Join(" ", ws[k])
  {
    if ws != [] {
      WindowTextsOfWords(ws[1..]);
      JoinWordsTrimmed(ws[0]);
      StripTrimmed(Join(" ", ws[0]));
      assert WindowText(ws[0]) == Join(" ", ws[0]);
    }
  }

  /**
   * Over the words of a text, no window is dropped: there is one chunk per window, so none
   * without words, and `WindowsCount` bounds their number.
   */
  lemma {:induction false} WordChunksCount(words: seq<string>, chunkSize: int, overlap: int)
    requires chunkSize > 0 && chunkSize > overlap
    requires forall k :: 0 <= k < |words| ==> IsWord(words[k])
    ensures var n := |WordChunks(words, chunkSize, overlap)|;
      && n == |WindowsFrom(words, 0, chunkSize, chunkSize - overlap)|
      && (n == 0 <==> words == [])
  {
    var ws := WindowsFrom(words, 0, chunkSize, chunkSize - overlap);
    WindowsCount(words, 0, chunkSize, chunkSize - overlap);
    WindowsOfWords(words, chunkSize, overlap);
    WindowTextsOfWords(ws);
    assert WordChunks(words, chunkSize, overlap) == Numbered(WindowTexts(ws), 0);
  }

  /**
   * Chunk `k` has id `k` and holds exactly the words of window `k` (which `WindowAt` places
   * at `k * stride`), joined by single spaces: at most `chunk_size` of them.
   */
  lemma {:induction false} WordChunkAt(words: seq<string>, chunkSize: int, overlap: int, k: nat)
    requires chunkSize > 0 && chunkSize > overlap
    requires forall j :: 0 <= j < |words| ==> IsWord(words[j])
    requires k < |WordChunks(words, chunkSize, overlap)|
    ensures k < |WindowsFrom(words, 0, chunkSize, chunkSize - overlap)|
    ensures var w, c := WindowsFrom(words, 0, chunkSize, chunkSize - overlap)[k], WordChunks(words, chunkSize, overlap)[k];
      && c.chunkId == k
      && c.text == Join(" ", w)
      && Words(c.text) == w
      && 0 < |w| <= chunkSize
  {
    var ws := WindowsFrom(words, 0, chunkSize, chunkSize - overlap);
    WindowsOfWords(words, chunkSize, overlap);
    WindowTextsOfWords(ws);
    assert WordChunks(words, chunkSize, overlap) == Numbered(WindowTexts(ws), 0);
    SplitJoinRoundTrip(ws[k]);
  }

  /** Over a word list, every window is a non-empty word list of at most `chunk_size` words. */
  lemma {:induction false} WindowsOfWords(words: seq<string>, chunkSize: int, overlap: int)
    requires chunkSize > 0 && chunkSize > overlap
    requires forall k :: 0 <= k < |words| ==> IsWord(words[k])
    ensures var ws := WindowsFrom(words, 0, chunkSize, chunkSize - overlap);
      WordWindows(ws) && forall k :: 0 <= k < |ws| ==> |ws[k]| <= chunkSize
  {
    var step := chunkSize - overlap;
    var ws := WindowsFrom(words, 0, chunkSize, step);
    forall k | 0 <= k < |ws|
      ensures ws[k] != [] && |ws[k]| <= chunkSize && forall j :: 0 <= j < |ws[k]| ==> IsWord(ws[k][j])
    {
      WindowAt(words, 0, chunkSize, step, k);
      SliceWindow(words, k * step, chunkSize);
    }
  }

  /** A window starting inside the word list holds between one and `size` words. */
  lemma {:induction false} SliceWindow(words: seq<string>, a: nat, size: int)
    requires a < |words| && size > 0
    requires forall k :: 0 <= k < |words| ==> IsWord(words[k])
    ensures var w := PySlice(words, a, a + size);
      0 < |w| <= size && forall k :: 0 <= k < |w| ==> IsWord(w[k])
  {
  }

  // ---------------------------------------------------------------- chunk_section_blocks

  /** `meta["chapter"]` if it is an `int`, else -1. */
  function ChapterOr(chapter: Option<int>): int {
    chapter.GetOr(-1)
  }

  /** `str(meta.get("section") or "unknown")`: a missing or empty section is "unknown". */
  function SectionOr(section: Option<string>): (r: string)
    ensures r != ""
  {
    if section.Some? && section.value != "" then section.value else "unknown"
  }

  /** The windows `cs` of block `b` as section chunks, with global ids from `first` on. */
  function BlockChunks(b: Block, cs: seq<TextChunk>, first: int): (r: seq<SectionChunk>)
    ensures |r| == |cs| && forall k :: 0 <= k < |r| ==>
      r[k] == SectionChunk(cs[k].text, b.source, b.page, ChapterOr(b.chapter), SectionOr(b.section),
                           cs[k].chunkId, first + k)
  {
    seq(|cs|, k requires 0 <= k < |cs| =>
      SectionChunk(cs[k].text, b.source, b.page, ChapterOr(b.chapter), SectionOr(b.section), cs[k].chunkId, first + k))
  }

  /**
   * What `chunk_section_blocks` returns: the chunks of every block in turn. The global ids
   * run 0, 1, 2, ... across all blocks, while `chunk_id` restarts at 0 in every block.
   */
  function SectionChunks(blocks: seq<Block>): seq<SectionChunk> {
    if blocks == [] then []
    else
      var prev := SectionChunks(blocks[..|blocks| - 1]);
      var b := blocks[|blocks| - 1];
      prev + BlockChunks(b, TextChunks(b.text, 180, 30), |prev|)
  }

  /** The inner loop of `chunk_section_blocks`: the chunks of one block, numbered on. */
  method AppendBlockChunks(all: seq<SectionChunk>, b: Block, chunks: seq<TextChunk>, first: int)
    returns (r: seq<SectionChunk>, next: int)
    ensures r == all + BlockChunks(b, chunks, first) && next == first + |chunks|
  {
    r := all;
    next := first;
    for j := 0 to |chunks|
      invariant next == first + j
      invariant r == all + BlockChunks(b, chunks, first)[..j]
    {
      var c := chunks[j];
      r := r + [SectionChunk(c.text, b.source, b.page, ChapterOr(b.chapter), SectionOr(b.section), c.chunkId, next)];
      next := next + 1;
    }
  }

  /** `chunk_section_blocks`. */
  method ChunkSectionBlocks(sectionBlocks: seq<Block>) returns (allChunks: seq<SectionChunk>)
    ensures allChunks == SectionChunks(sectionBlocks)
  {
    allChunks := [];
    var globalChunkId := 0;
    for i := 0 to |sectionBlocks|
      invariant allChunks == SectionChunks(sectionBlocks[..i])
      invariant globalChunkId == |allChunks|
    {
      var block := sectionBlocks[i];
      var chunks := ChunkText(block.text);
      assert sectionBlocks[..i + 1][..i] == sectionBlocks[..i];
      allChunks, globalChunkId := AppendBlockChunks(allChunks, block, chunks, globalChunkId);
    }
    assert sectionBlocks[..|sectionBlocks|] == sectionBlocks;
  }

  /**
   * Every section chunk carries the metadata of the block it was cut from: the chunks of
   * block `i` follow those of the blocks before it.
   */
  lemma {:induction false} SectionChunksOfBlock(blocks: seq<Block>, i: nat)
    requires i < |blocks|
    ensures var before := |SectionChunks(blocks[..i])|;
      var own := BlockChunks(blocks[i], TextChunks(blocks[i].text, 180, 30), before);
      before + |own| <= |SectionChunks(blocks)|
      && SectionChunks(blocks)[before..before + |own|] == own
  {
    var prev := SectionChunks(blocks[..i]);
    var own := BlockChunks(blocks[i], TextChunks(blocks[i].text, 180, 30), |prev|);
    SectionChunksSnoc(blocks, i);
    SectionChunksPrefix(blocks, i + 1);
    PrefixSlice(prev, own, SectionChunks(blocks));
  }

  lemma {:induction false} SectionChunksSnoc(blocks: seq<Block>, i: nat)
    requires i < |blocks|
    ensures var prev := SectionChunks(blocks[..i]);
      SectionChunks(blocks[..i + 1]) == prev + BlockChunks(blocks[i], TextChunks(blocks[i].text, 180, 30), |prev|)
  {
    assert blocks[..i + 1][..i] == blocks[..i];
  }

  /** The global ids run 0, 1, 2, ... over all section chunks. */
  lemma {:induction false} SectionChunkIds(blocks: seq<Block>)
    ensures forall k :: 0 <= k < |SectionChunks(blocks)| ==> SectionChunks(blocks)[k].globalChunkId == k
    decreases |blocks|
  {
    if blocks != [] {
      var init := blocks[..|blocks| - 1];
      var prev := SectionChunks(init);
      var b := blocks[|blocks| - 1];
      var own := BlockChunks(b, TextChunks(b.text, 180, 30), |prev|);
      SectionChunkIds(init);
      var r := SectionChunks(blocks);
      assert r == prev + own;
      forall k | 0 <= k < |r|
        ensures r[k].globalChunkId == k
      {
        if k >= |prev| {
          var j := k - |prev|;
          assert r[k] == own[j];
          assert own[j].globalChunkId == |prev| + j;
        } else {
          assert r[k] == prev[k];
        }
      }
    }
  }

  /** Chunking more blocks only appends: the chunks of a prefix are a prefix of the chunks. */
  lemma {:induction false} SectionChunksPrefix(blocks: seq<Block>, i: nat)
    requires i <= |blocks|
    ensures SectionChunks(blocks[..i]) <= SectionChunks(blocks)
    decreases |blocks|
  {
    if i < |blocks| {
      var init := blocks[..|blocks| - 1];
      SectionChunksPrefix(init, i);
      assert init[..i] == blocks[..i];
    } else {
      assert blocks[..i] == blocks;
    }
  }

  // ---------------------------------------------------------------- build_chunk

  /** The sum of the blocks' word counts: the token count of `semantic_chunk_blocks`. */
  function TokenSum(blocks: seq<Block>): nat {
    if blocks == [] then 0 else TokenSum(blocks[..|blocks| - 1]) + WordCount(blocks[|blocks| - 1].text)
  }

  /** `str(p)` of every block's page. */
  function PageStrings(blocks: seq<Block>): (r: seq<string>)
    ensures |r| == |blocks| && forall k :: 0 <= k < |r| ==> r[k] == IntToString(blocks[k].page)
  {
    seq(|blocks|, k requires 0 <= k < |blocks| => IntToString(blocks[k].page))
  }

  /** The sections of the blocks that have one (`isinstance(s, str)`), in order. */
  function SectionStrings(blocks: seq<Block>): (r: seq<string>)
    ensures forall s :: s in r <==> exists k :: 0 <= k < |blocks| && blocks[k].section == Some(s)
  {
    if blocks == [] then []
    else
      var last, init := blocks[|blocks| - 1], blocks[..|blocks| - 1];
      var prev := SectionStrings(init);
      assert forall k :: 0 <= k < |init| ==> init[k] == blocks[k];
      prev + (if last.section.Some? then [last.section.value] else [])
  }

  /**
   * `build_chunk(blocks, global_chunk_id)`: the `"\n\n"`-joined texts, provenance from the
   * first block, the distinct pages and sections as sorted strings, and `len(blocks) / 5`
   * as confidence. Python raises `IndexError` on an empty run.
   */
  function BuildChunk(blocks: seq<Block>, globalChunkId: int): (r: Chunk)
    requires blocks != []
    ensures r.metadata.globalChunkId == globalChunkId && r.metadata.docId == None
    ensures StrictlySorted(r.metadata.pages) && StrictlySorted(r.metadata.sections)
    ensures r.metadata.chunkConfidence > 0.0
  {
    var first := blocks[0];
    Chunk(
      Join("\n\n", BlockTexts(blocks)),
      ChunkMetadata(
        first.source,
        first.page,
        ChapterOr(first.chapter),
        SectionOr(first.section),
        globalChunkId,
        SortedSet(PageStrings(blocks)),
        SortedSet(SectionStrings(blocks)),
        |blocks| as real / 5.0,
        None))
  }

  /**
   * The metadata of a built chunk: provenance of the first block with the defaults -1 and
   * "unknown"; `pages` lists each distinct page once, as text, in text order; `sections`
   * lists each distinct section present once, in text order; no document id yet.
   */
  lemma {:induction false} BuildChunkMetadata(blocks: seq<Block>, globalChunkId: int)
    requires blocks != []
    ensures var m := BuildChunk(blocks, globalChunkId).metadata;
      && m.source == blocks[0].source && m.page == blocks[0].page
      && (blocks[0].chapter.None? ==> m.chapter == -1)
      && (forall ch :: blocks[0].chapter == Some(ch) ==> m.chapter == ch)
      && (blocks[0].section.None? || blocks[0].section == Some("") ==> m.section == "unknown")
      && (forall s :: blocks[0].section == Some(s) && s != "" ==> m.section == s)
      && m.globalChunkId == globalChunkId && m.docId == None
      && m.chunkConfidence * 5.0 == |blocks| as real
      && StrictlySorted(m.pages)
      && (forall p :: p in m.pages <==> exists k :: 0 <= k < |blocks| && p == IntToString(blocks[k].page))
      && StrictlySorted(m.sections)
      && (forall s :: s in m.sections <==> exists k :: 0 <= k < |blocks| && blocks[k].section == Some(s))
  {
    var m := BuildChunk(blocks, globalChunkId).metadata;
    assert m.pages == SortedSet(PageStrings(blocks));
    assert m.sections == SortedSet(SectionStrings(blocks));
  }

  lemma {:induction false} WordsOfAllCount(blocks: seq<Block>)
    ensures |WordsOfAll(BlockTexts(blocks))| == TokenSum(blocks)
  {
    if blocks != [] {
      var init := blocks[..|blocks| - 1];
      WordsOfAllCount(init);
      assert BlockTexts(blocks)[..|blocks| - 1] == BlockTexts(init);
    }
  }

  /**
   * The chunk text holds exactly the words of its blocks, in order; its word count is the
   * sum of theirs.
   */
  lemma {:induction false} BuildChunkWords(blocks: seq<Block>, globalChunkId: int)
    requires blocks != []
    ensures Words(BuildChunk(blocks, globalChunkId).text) == WordsOfAll(BlockTexts(blocks))
    ensures WordCount(BuildChunk(blocks, globalChunkId).text) == TokenSum(blocks)
  {
    WordsOfJoin("\n\n", BlockTexts(blocks));
    WordsOfAllCount(blocks);
  }
}
