/**
 * The segmenter of pdfreader.py: `process_page` turns one page's text into blocks while
 * carrying chapter and section state from page to page, `process_pdf` runs it over the
 * first pages of a document, and `pdf_to_chunks` falls back to paragraph blocks and then
 * to fixed word windows when no numbered heading turns up.
 *
 * Page text is given: `pages[i]` is what text extraction returns for page `i`, with ""
 * for a page without text.
 */
module Segmenter {
  import opened Wrappers
  import opened Seqs
  import opened Text
  import opened Records
  import opened Normalizer

  /** The `state` dict `process_pdf` hands to every `process_page` call. */
  class PageState {
    var chapter: Option<int>
    var section: Option<string>
    var foundSection: bool

    /** `{"chapter": None, "section": None, "found_section": False}`. */
    constructor()
      ensures chapter == None && section == None && !foundSection
    {
      chapter := None;
      section := None;
      foundSection := false;
    }
  }

  // ---------------------------------------------------------------- lines of a page

  /** `[l for l in lines if l not in boilerplate]`. */
  function WithoutBoilerplate(lines: seq<string>, boilerplate: set<string>): (r: seq<string>)
    ensures forall k :: 0 <= k < |r| ==> r[k] !in boilerplate && r[k] in lines
  {
    if lines == [] then []
    else
      var last := lines[|lines| - 1];
      WithoutBoilerplate(lines[..|lines| - 1], boilerplate) + (if last in boilerplate then [] else [last])
  }

  /** The lines `process_page` walks through: stripped, non-empty and not boilerplate. */
  function BodyLines(raw: string, boilerplate: set<string>): seq<string> {
    WithoutBoilerplate(StrippedLines(raw), boilerplate)
  }

  /**
   * What the line loop of `process_page` makes of a line. `Classify` runs the loop's tests
   * in the loop's order: caption, then chapter, then heading; anything else is content.
   */
  datatype LineKind =
    | Caption
    | ChapterLine(number: nat)
    | HeadingLine(heading: string)
    /** Any other line, bullet-normalised. */
    | ContentLine(text: string)

  function Classify(line: string): LineKind {
    if IsFigureOrTable(line) then Caption
    else if ChapterNumber(line).Some? then ChapterLine(ChapterNumber(line).value)
    else if SectionHeading(line).Some? then HeadingLine(SectionHeading(line).value)
    else ContentLine(NormalizeBullet(line))
  }

  function Kinds(lines: seq<string>): (r: seq<LineKind>)
    ensures |r| == |lines|
  {
    seq(|lines|, k requires 0 <= k < |lines| => Classify(lines[k]))
  }

  /** The normalised content lines, in order: what the blocks of a page are made of. */
  function ContentLines(kinds: seq<LineKind>): seq<string> {
    if kinds == [] then []
    else
      var last := kinds[|kinds| - 1];
      ContentLines(kinds[..|kinds| - 1]) + (if last.ContentLine? then [last.text] else [])
  }

  // ---------------------------------------------------------------- the page scan

  /** The local variables of `process_page` together with the state it mutates. */
  datatype Scan = Scan(
    blocks: seq<Block>,
    buffer: seq<string>,
    chapter: Option<int>,
    section: Option<string>,
    found: bool)

  /** A content line goes onto the buffer: glued to the last line, or as a new one. */
  function AddLine(buffer: seq<string>, line: string): seq<string> {
    if buffer != [] && ShouldMerge(buffer[|buffer| - 1], line) then
      buffer[..|buffer| - 1] + [buffer[|buffer| - 1] + " " + line]
    else
      buffer + [line]
  }

  /** The block flushed at a heading: missing chapter and section become -1 and "unknown". */
  function HeadingFlush(s: Scan, source: string, page: int): seq<Block> {
    if s.buffer != [] then
      [Block(Join("\n\n", s.buffer), source, page, Some(s.chapter.GetOr(-1)), Some(s.section.GetOr("unknown")))]
    else []
  }

  /** One iteration of the line loop of `process_page`. */
  function Step(s: Scan, kind: LineKind, source: string, page: int): Scan {
    match kind
    case Caption => s
    case ChapterLine(n) => s.(chapter := Some(n))
    case HeadingLine(h) => Scan(s.blocks + HeadingFlush(s, source, page), [], s.chapter, Some(h), true)
    case ContentLine(text) => s.(buffer := AddLine(s.buffer, text))
  }

  /** The line loop of `process_page`, over the lines seen so far. */
  function ScanLines(start: Scan, kinds: seq<LineKind>, source: string, page: int): Scan {
    if kinds == [] then start
    else Step(ScanLines(start, kinds[..|kinds| - 1], source, page), kinds[|kinds| - 1], source, page)
  }

  /** The final flush at the end of the page keeps the raw, possibly missing, state values. */
  function FinalBlocks(s: Scan, source: string, page: int): seq<Block> {
    s.blocks + (if s.buffer != [] then [Block(Join("\n\n", s.buffer), source, page, s.chapter, s.section)] else [])
  }

  /** The blocks of a page and the state it leaves behind. */
  datatype PageResult = PageResult(
    blocks: seq<Block>,
    chapter: Option<int>,
    section: Option<string>,
    found: bool)

  /** The blocks and state of a page with classified body lines `kinds`. */
  function ScanPage(kinds: seq<LineKind>, page: int, source: string,
                    chapter: Option<int>, section: Option<string>, found: bool): PageResult
  {
    var s := ScanLines(Scan([], [], chapter, section, found), kinds, source, page);
    PageResult(FinalBlocks(s, source, page), s.chapter, s.section, s.found)
  }

  /** What `process_page` returns for the page text `raw` and the state it leaves. */
  function PageOutcome(raw: string, page: int, source: string, boilerplate: set<string>,
                       chapter: Option<int>, section: Option<string>, found: bool): PageResult
  {
    if raw == "" then PageResult([], chapter, section, found)
    else ScanPage(Kinds(BodyLines(raw, boilerplate)), page, source, chapter, section, found)
  }

  /** One more line of the loop is one more `Step`. */
  lemma {:induction false} ScanLinesSnoc(start: Scan, kinds: seq<LineKind>, i: nat, source: string, page: int)
    requires i < |kinds|
    ensures ScanLines(start, kinds[..i + 1], source, page)
      == Step(ScanLines(start, kinds[..i], source, page), kinds[i], source, page)
  {
    assert kinds[..i + 1][..i] == kinds[..i];
  }

  /**
   * `process_page`: walks the page's body lines, skipping captions, recording chapters,
   * flushing the buffer at each heading, and buffering (or gluing) the other lines.
   */
  method ProcessPage(raw: string, pageNumber: int, source: string, boilerplate: set<string>,
                     state: PageState) returns (blocks: seq<Block>)
    modifies state
    ensures PageResult(blocks, state.chapter, state.section, state.foundSection)
      == PageOutcome(raw, pageNumber, source, boilerplate,
                     old(state.chapter), old(state.section), old(state.foundSection))
  {
    if raw == "" {
      return [];
    }
    var lines := BodyLines(raw, boilerplate);
    ghost var kinds := Kinds(lines);
    blocks := [];
    var buffer: seq<string> := [];
    var currentSection := state.section;
    ghost var start := Scan([], [], state.chapter, state.section, state.foundSection);
    for i := 0 to |lines|
      invariant currentSection == state.section
      invariant Scan(blocks, buffer, state.chapter, state.section, state.foundSection)
        == ScanLines(start, kinds[..i], source, pageNumber)
    {
      var line := lines[i];
      var kind := Classify(line);
      assert kinds[i] == kind;
      ScanLinesSnoc(start, kinds, i, source, pageNumber);
      ghost var before := Scan(blocks, buffer, state.chapter, state.section, state.foundSection);
      ghost var after := Step(before, kind, source, pageNumber);
      match kind {
        case Caption =>
        case ChapterLine(n) =>
          state.chapter := Some(n);
        case HeadingLine(section) =>
          if buffer != [] {
            blocks := blocks + [Block(Join("\n\n", buffer), source, pageNumber,
                                      Some(state.chapter.GetOr(-1)), Some(currentSection.GetOr("unknown")))];
            buffer := [];
          } else {
            AppendEmpty(blocks);
          }
          currentSection := Some(section);
          state.section := Some(section);
          state.foundSection := true;
        case ContentLine(normalized) =>
          if buffer != [] && ShouldMerge(buffer[|buffer| - 1], normalized) {
            buffer := buffer[..|buffer| - 1] + [buffer[|buffer| - 1] + " " + normalized];
          } else {
            buffer := buffer + [normalized];
          }
      }
      assert Scan(blocks, buffer, state.chapter, state.section, state.foundSection) == after;
    }
    assert kinds[..|lines|] == kinds;
    if buffer != [] {
      blocks := blocks + [Block(Join("\n\n", buffer), source, pageNumber, state.chapter, currentSection)];
    }
  }

  // ---------------------------------------------------------------- properties of a page

  lemma {:induction false} ScanLinesAppend(s: Scan, a: seq<LineKind>, b: seq<LineKind>, source: string, page: int)
    ensures ScanLines(s, a + b, source, page) == ScanLines(ScanLines(s, a, source, page), b, source, page)
    decreases |b|
  {
    if b == [] {
      assert a + b == a;
    } else {
      assert (a + b)[..|a + b| - 1] == a + b[..|b| - 1];
      ScanLinesAppend(s, a, b[..|b| - 1], source, page);
    }
  }

  /** Every block a page scan emits carries the page's source and number. */
  lemma {:induction false} ScanProvenance(s: Scan, kinds: seq<LineKind>, source: string, page: int)
    ensures var r := ScanLines(s, kinds, source, page);
      |s.blocks| <= |r.blocks| && r.blocks[..|s.blocks|] == s.blocks
      && forall k :: |s.blocks| <= k < |r.blocks| ==> r.blocks[k].source == source && r.blocks[k].page == page
  {
    if kinds != [] {
      ScanProvenance(s, kinds[..|kinds| - 1], source, page);
    }
  }

  lemma {:induction false} WordsOfAllAppend(xs: seq<string>, ys: seq<string>)
    ensures WordsOfAll(xs + ys) == WordsOfAll(xs) + WordsOfAll(ys)
    decreases |ys|
  {
    if ys == [] {
      assert xs + ys == xs;
      AppendEmpty(WordsOfAll(xs));
    } else {
      var init, last := ys[..|ys| - 1], ys[|ys| - 1];
      assert (xs + ys)[..|xs + ys| - 1] == xs + init;
      assert (xs + ys)[|xs + ys| - 1] == last;
      assert WordsOfAll(xs + ys) == WordsOfAll(xs + init) + Words(last);
      WordsOfAllAppend(xs, init);
      AppendAssoc(WordsOfAll(xs), WordsOfAll(init), Words(last));
    }
  }

  lemma {:induction false} WordsOfOne(x: string)
    ensures WordsOfAll([x]) == Words(x)
  {
    assert [x][..0] == [];
  }

  /** Gluing a line onto the buffer keeps the buffer's words and adds the line's. */
  lemma {:induction false} AddLineWords(buffer: seq<string>, line: string)
    ensures WordsOfAll(AddLine(buffer, line)) == WordsOfAll(buffer) + Words(line)
  {
    if buffer != [] && ShouldMerge(buffer[|buffer| - 1], line) {
      GlueWords(buffer[..|buffer| - 1], buffer[|buffer| - 1], line);
      assert buffer == buffer[..|buffer| - 1] + [buffer[|buffer| - 1]];
    } else {
      WordsOfAllAppend(buffer, [line]);
      WordsOfOne(line);
    }
  }

  lemma {:induction false} GlueWords(init: seq<string>, last: string, line: string)
    ensures WordsOfAll(init + [last + " " + line]) == WordsOfAll(init + [last]) + Words(line)
  {
    var glued := last + " " + line;
    var a, wl, wn, wg := WordsOfAll(init), Words(last), Words(line), Words(glued);
    WordsOfAllSnoc(init, glued);
    WordsOfAllSnoc(init, last);
    WordsAroundBlank(last, line);
    AppendAssoc(a, wl, wn);
  }

  lemma {:induction false} WordsAroundBlank(a: string, b: string)
    ensures Words(a + " " + b) == Words(a) + Words(b)
  {
    assert IsSpace(" "[0]);
    WordsAroundSeparator(a, " ", b);
  }

  lemma {:induction false} WordsOfAllSnoc(xs: seq<string>, x: string)
    ensures WordsOfAll(xs + [x]) == WordsOfAll(xs) + Words(x)
  {
    assert (xs + [x])[..|xs|] == xs;
  }

  /** The words of the emitted blocks followed by the words still buffered. */
  function ScanWords(s: Scan): seq<string> {
    WordsOfAll(BlockTexts(s.blocks)) + WordsOfAll(s.buffer)
  }

  /** Emitting the buffer as one `"\n\n"`-joined block moves its words into the blocks. */
  lemma {:induction false} FlushWords(blocks: seq<Block>, buffer: seq<string>, b: Block)
    requires b.text == Join("\n\n", buffer)
    ensures WordsOfAll(BlockTexts(blocks + [b])) == WordsOfAll(BlockTexts(blocks)) + WordsOfAll(buffer)
  {
    assert BlockTexts(blocks + [b]) == BlockTexts(blocks) + [b.text];
    WordsOfAllAppend(BlockTexts(blocks), [b.text]);
    WordsOfOne(b.text);
    WordsOfJoin("\n\n", buffer);
  }

  lemma {:induction false} StepWords(s: Scan, kind: LineKind, source: string, page: int)
    ensures ScanWords(Step(s, kind, source, page))
      == ScanWords(s) + (if kind.ContentLine? then Words(kind.text) else [])
  {
    match kind
    case Caption =>
    case ChapterLine(_) =>
    case HeadingLine(h) =>
      if s.buffer != [] {
        FlushWords(s.blocks, s.buffer, HeadingFlush(s, source, page)[0]);
      } else {
        assert s.blocks + HeadingFlush(s, source, page) == s.blocks;
      }
      assert WordsOfAll([]) == [];
    case ContentLine(text) =>
      AddLineWords(s.buffer, text);
  }

  /**
   * Nothing is lost, added or reordered: the words of the blocks and of the buffer are the
   * words the scan started with followed by the words of the normalised content lines.
   */
  lemma {:induction false} ScanKeepsWords(s: Scan, kinds: seq<LineKind>, source: string, page: int)
    ensures ScanWords(ScanLines(s, kinds, source, page)) == ScanWords(s) + WordsOfAll(ContentLines(kinds))
  {
    if kinds != [] {
      var init, last := kinds[..|kinds| - 1], kinds[|kinds| - 1];
      ScanKeepsWords(s, init, source, page);
      StepWords(ScanLines(s, init, source, page), last, source, page);
      if last.ContentLine? {
        WordsOfAllAppend(ContentLines(init), [last.text]);
        WordsOfOne(last.text);
      } else {
        assert ContentLines(kinds) == ContentLines(init);
      }
    }
  }

  lemma {:induction false} BodyLinesOfEmpty(boilerplate: set<string>)
    ensures BodyLines("", boilerplate) == []
  {
    assert SplitLines("") == [];
  }

  /**
   * The blocks of a page hold, in order, exactly the words of its normalised content lines:
   * captions, chapter lines and headings contribute nothing. Every block carries the
   * page's source and number.
   */
  lemma {:induction false} PageBlocksContent(kinds: seq<LineKind>, page: int, source: string,
                          chapter: Option<int>, section: Option<string>, found: bool)
    ensures var r := ScanPage(kinds, page, source, chapter, section, found);
      && WordsOfAll(BlockTexts(r.blocks)) == WordsOfAll(ContentLines(kinds))
      && forall k :: 0 <= k < |r.blocks| ==> r.blocks[k].source == source && r.blocks[k].page == page
  {
    var start := Scan([], [], chapter, section, found);
    var s := ScanLines(start, kinds, source, page);
    var blocks := FinalBlocks(s, source, page);
    ScanKeepsWords(start, kinds, source, page);
    ScanProvenance(start, kinds, source, page);
    assert ScanWords(start) == [];
    assert WordsOfAll(BlockTexts(s.blocks)) + WordsOfAll(s.buffer) == WordsOfAll(ContentLines(kinds));
    if s.buffer != [] {
      var b := Block(Join("\n\n", s.buffer), source, page, s.chapter, s.section);
      assert blocks == s.blocks + [b];
      FlushWords(s.blocks, s.buffer, b);
    } else {
      assert blocks == s.blocks;
    }
  }

  /** The chapter after a scan is the number of the last chapter line, if there is one. */
  lemma {:induction false} LastChapterLine(s: Scan, pre: seq<LineKind>, n: nat, post: seq<LineKind>, source: string, page: int)
    requires forall k :: 0 <= k < |post| ==> !post[k].ChapterLine?
    ensures ScanLines(s, pre + [ChapterLine(n)] + post, source, page).chapter == Some(n)
  {
    ScanLinesAppend(s, pre + [ChapterLine(n)], post, source, page);
    ScanLinesAppend(s, pre, [ChapterLine(n)], source, page);
    ChapterKept(ScanLines(s, pre + [ChapterLine(n)], source, page), post, source, page);
  }

  /** Without a chapter line the chapter stays what it was. */
  lemma {:induction false} ChapterKept(s: Scan, kinds: seq<LineKind>, source: string, page: int)
    requires forall k :: 0 <= k < |kinds| ==> !kinds[k].ChapterLine?
    ensures ScanLines(s, kinds, source, page).chapter == s.chapter
  {
    if kinds != [] {
      ChapterKept(s, kinds[..|kinds| - 1], source, page);
    }
  }

  /**
   * The section after a scan is the last heading's and `found` is then set; a block
   * flushed at that heading carries the section in force before it, or "unknown".
   */
  lemma {:induction false} LastHeadingLine(s: Scan, pre: seq<LineKind>, h: string, post: seq<LineKind>, source: string, page: int)
    requires forall k :: 0 <= k < |post| ==> !post[k].HeadingLine?
    ensures var before := ScanLines(s, pre, source, page);
      var after := ScanLines(s, pre + [HeadingLine(h)] + post, source, page);
      && after.section == Some(h) && after.found
      && (before.buffer != [] ==>
            ScanLines(s, pre + [HeadingLine(h)], source, page).blocks
              == before.blocks + [Block(Join("\n\n", before.buffer), source, page,
                                        Some(before.chapter.GetOr(-1)), Some(before.section.GetOr("unknown")))])
  {
    ScanLinesAppend(s, pre + [HeadingLine(h)], post, source, page);
    ScanLinesAppend(s, pre, [HeadingLine(h)], source, page);
    SectionKept(ScanLines(s, pre + [HeadingLine(h)], source, page), post, source, page);
  }

  /** Without a heading the section and `found_section` stay what they were. */
  lemma {:induction false} SectionKept(s: Scan, kinds: seq<LineKind>, source: string, page: int)
    requires forall k :: 0 <= k < |kinds| ==> !kinds[k].HeadingLine?
    ensures ScanLines(s, kinds, source, page).section == s.section
    ensures ScanLines(s, kinds, source, page).found == s.found
  {
    if kinds != [] {
      SectionKept(s, kinds[..|kinds| - 1], source, page);
    }
  }

  predicate HasHeading(kinds: seq<LineKind>) {
    exists k :: 0 <= k < |kinds| && kinds[k].HeadingLine?
  }

  /** `found_section` ends up set exactly when it was set before or a heading was seen. */
  lemma {:induction false} ScanFound(s: Scan, kinds: seq<LineKind>, source: string, page: int)
    ensures ScanLines(s, kinds, source, page).found <==> s.found || HasHeading(kinds)
  {
    if kinds != [] {
      var init := kinds[..|kinds| - 1];
      ScanFound(s, init, source, page);
      if HasHeading(init) {
        var k :| 0 <= k < |init| && init[k].HeadingLine?;
        assert kinds[k] == init[k];
      }
      if HasHeading(kinds) && !kinds[|kinds| - 1].HeadingLine? {
        var k :| 0 <= k < |kinds| && kinds[k].HeadingLine?;
        assert init[k] == kinds[k];
      }
    }
  }

  /** A page whose lines are all blank or boilerplate yields no block and changes no state. */
  lemma {:induction false} PageWithoutBody(page: int, source: string, chapter: Option<int>, section: Option<string>, found: bool)
    ensures ScanPage([], page, source, chapter, section, found) == PageResult([], chapter, section, found)
  {
  }

  // ---------------------------------------------------------------- process_pdf

  /** `process_pdf` stops before the page with index 6. */
  const SectionScanPages: nat := 6

  /** The blocks and state after the first `n` pages, numbered from 1. */
  function ScanPages(pages: seq<string>, n: nat, source: string, boilerplate: set<string>): PageResult
    requires n <= |pages|
  {
    if n == 0 then PageResult([], None, None, false)
    else
      var r := ScanPages(pages, n - 1, source, boilerplate);
      var p := PageOutcome(pages[n - 1], n, source, boilerplate, r.chapter, r.section, r.found);
      PageResult(r.blocks + p.blocks, p.chapter, p.section, p.found)
  }

  function Min(a: nat, b: nat): nat { if a <= b then a else b }

  /**
   * `process_pdf`: detects boilerplate over all pages, then runs `process_page` over the
   * pages with index at most 5, sharing one state; returns the blocks and `found_section`.
   */
  method ProcessPdf(path: string, pages: seq<string>) returns (outputs: seq<Block>, foundSection: bool)
    ensures var r := ScanPages(pages, Min(SectionScanPages, |pages|), path, BoilerplateLines(pages));
      outputs == r.blocks && foundSection == r.found
  {
    var boilerplate := DetectBoilerplateLines(pages);
    var state := new PageState();
    outputs := [];
    var i := 0;
    while i < |pages|
      invariant i <= |pages| && i <= SectionScanPages
      invariant ScanPages(pages, i, path, boilerplate)
        == PageResult(outputs, state.chapter, state.section, state.foundSection)
    {
      if i > 5 {
        break;
      }
      var pageBlocks := ProcessPage(pages[i], i + 1, path, boilerplate, state);
      outputs := outputs + pageBlocks;
      i := i + 1;
    }
    foundSection := state.foundSection;
  }

  /** The classified body lines of page `i` (numbered from 0). */
  function PageKinds(pages: seq<string>, i: nat, boilerplate: set<string>): seq<LineKind>
    requires i < |pages|
  {
    Kinds(BodyLines(pages[i], boilerplate))
  }

  /** Whether one of the first `n` pages has a heading among its body lines. */
  predicate HeadingInPages(pages: seq<string>, n: nat, boilerplate: set<string>)
    requires n <= |pages|
  {
    n > 0 && (HeadingInPages(pages, n - 1, boilerplate) || HasHeading(PageKinds(pages, n - 1, boilerplate)))
  }

  /** A page sets `found_section` exactly when one of its body lines is a heading. */
  lemma {:induction false} PageFound(raw: string, page: int, source: string, boilerplate: set<string>,
                  chapter: Option<int>, section: Option<string>, found: bool)
    ensures PageOutcome(raw, page, source, boilerplate, chapter, section, found).found
      <==> found || HasHeading(Kinds(BodyLines(raw, boilerplate)))
  {
    var kinds := Kinds(BodyLines(raw, boilerplate));
    if raw == "" {
      BodyLinesOfEmpty(boilerplate);
      assert kinds == [];
    } else {
      ScanFound(Scan([], [], chapter, section, found), kinds, source, page);
    }
  }

  /** `found_section` is set exactly when a numbered heading occurs on one of the pages read. */
  lemma {:induction false} FoundIffHeading(pages: seq<string>, n: nat, source: string, boilerplate: set<string>)
    requires n <= |pages|
    ensures ScanPages(pages, n, source, boilerplate).found <==> HeadingInPages(pages, n, boilerplate)
  {
    if n > 0 {
      var m: nat := n - 1;
      FoundIffHeading(pages, m, source, boilerplate);
      FoundStep(pages, m, source, boilerplate);
    }
  }

  /** Page `m + 1` sets `found_section` when it was set before or the page has a heading. */
  lemma {:induction false} FoundStep(pages: seq<string>, m: nat, source: string, boilerplate: set<string>)
    requires m < |pages|
    ensures ScanPages(pages, m + 1, source, boilerplate).found
      <==> ScanPages(pages, m, source, boilerplate).found || HasHeading(PageKinds(pages, m, boilerplate))
  {
    var r := ScanPages(pages, m, source, boilerplate);
    var p := PageOutcome(pages[m], m + 1, source, boilerplate, r.chapter, r.section, r.found);
    assert ScanPages(pages, m + 1, source, boilerplate).found == p.found;
    PageFound(pages[m], m + 1, source, boilerplate, r.chapter, r.section, r.found);
  }

  // ---------------------------------------------------------------- paragraph blocks

  /** Paragraphs are only kept when longer than this many characters. */
  const MinParagraphLength: nat := 40

  /** `[p.strip() for p in text.split("\n\n") if len(p.strip()) > 40]`. */
  function Paragraphs(pieces: seq<string>): (r: seq<string>)
    ensures forall k :: 0 <= k < |r| ==> Trimmed(r[k]) && |r[k]| > MinParagraphLength
  {
    if pieces == [] then []
    else
      var p := Strip(pieces[|pieces| - 1]);
      Paragraphs(pieces[..|pieces| - 1]) + (if |p| > MinParagraphLength then [p] else [])
  }

  /** The blocks of one page's paragraphs. */
  function ParagraphBlocksOf(paragraphs: seq<string>, source: string, page: int): (r: seq<Block>)
    ensures |r| == |paragraphs|
    ensures forall k :: 0 <= k < |r| ==> r[k] == Block(paragraphs[k], source, page, Some(-1), Some("unknown"))
  {
    seq(|paragraphs|, k requires 0 <= k < |paragraphs| => Block(paragraphs[k], source, page, Some(-1), Some("unknown")))
  }

  /** A block of `paragraph_blocks_from_pages` from one of the first `n` pages. */
  predicate PageBlock(b: Block, source: string, n: nat) {
    && Trimmed(b.text) && |b.text| > MinParagraphLength
    && 1 <= b.page <= n && b.source == source
    && b.chapter == Some(-1) && b.section == Some("unknown")
  }

  predicate PagesSorted(r: seq<Block>) {
    forall j, k :: 0 <= j < k < |r| ==> r[j].page <= r[k].page
  }

  /** What `paragraph_blocks_from_pages` returns for the first `n` pages. */
  function ParagraphBlocks(pages: seq<string>, n: nat, source: string): (r: seq<Block>)
    requires n <= |pages|
    ensures forall k :: 0 <= k < |r| ==> PageBlock(r[k], source, n)
    ensures PagesSorted(r)
  {
    if n == 0 then []
    else
      var text := pages[n - 1];
      var prev := ParagraphBlocks(pages, n - 1, source);
      if text == "" then prev
      else
        var blocks := ParagraphBlocksOf(Paragraphs(SplitBlankLines(text)), source, n);
        AppendPageBlocks(prev, blocks, source, n);
        prev + blocks
  }

  /** The blocks of page `n` come after those of earlier pages and keep the pages sorted. */
  lemma {:induction false} AppendPageBlocks(prev: seq<Block>, blocks: seq<Block>, source: string, n: nat)
    requires n >= 1
    requires forall k :: 0 <= k < |prev| ==> PageBlock(prev[k], source, n - 1)
    requires PagesSorted(prev)
    requires forall k :: 0 <= k < |blocks| ==> PageBlock(blocks[k], source, n) && blocks[k].page == n
    ensures forall k :: 0 <= k < |prev + blocks| ==> PageBlock((prev + blocks)[k], source, n)
    ensures PagesSorted(prev + blocks)
  {
    var r := prev + blocks;
    assert forall k :: 0 <= k < |prev| ==> r[k] == prev[k];
    assert forall k :: |prev| <= k < |r| ==> r[k] == blocks[k - |prev|];
  }

  /** One more page adds the blocks of its paragraphs, or nothing for a page without text. */
  lemma {:induction false} ParagraphBlocksStep(pages: seq<string>, i: nat, source: string)
    requires i < |pages|
    ensures ParagraphBlocks(pages, i + 1, source)
      == ParagraphBlocks(pages, i, source)
         + (if pages[i] == "" then [] else ParagraphBlocksOf(Paragraphs(SplitBlankLines(pages[i])), source, i + 1))
  {
    if pages[i] == "" {
      assert ParagraphBlocks(pages, i, source) + [] == ParagraphBlocks(pages, i, source);
    }
  }

  /** The kept paragraphs of every page, in page order. */
  function PageParagraphs(pages: seq<string>): (r: seq<seq<string>>)
    ensures |r| == |pages|
    ensures forall i :: 0 <= i < |pages| ==> r[i] == Paragraphs(SplitBlankLines(pages[i]))
  {
    seq(|pages|, i requires 0 <= i < |pages| => Paragraphs(SplitBlankLines(pages[i])))
  }

  /**
   * Every paragraph block holds one of the kept paragraphs of the page its `page` field
   * names, so a block is never attributed to another page.
   */
  lemma {:induction false} ParagraphBlocksProvenance(pages: seq<string>, n: nat, source: string)
    requires n <= |pages|
    ensures FromOwnPages(ParagraphBlocks(pages, n, source), PageParagraphs(pages), n)
    decreases n
  {
    if n > 0 {
      var m: nat := n - 1;
      ParagraphBlocksProvenance(pages, m, source);
      ProvenanceStep(pages, PageParagraphs(pages), m, source);
    }
  }

  /** Page `m + 1` keeps the provenance of the blocks of the first `m` pages. */
  lemma {:induction false} ProvenanceStep(pages: seq<string>, paras: seq<seq<string>>, m: nat, source: string)
    requires m < |pages| == |paras|
    requires paras[m] == Paragraphs(SplitBlankLines(pages[m]))
    requires FromOwnPages(ParagraphBlocks(pages, m, source), paras, m)
    ensures FromOwnPages(ParagraphBlocks(pages, m + 1, source), paras, m + 1)
  {
    var ps := paras[m];
    var own: seq<Block> := if pages[m] == "" then [] else ParagraphBlocksOf(ps, source, m + 1);
    ParagraphBlocksStep(pages, m, source);
    forall k | 0 <= k < |own|
      ensures own[k].page == m + 1 && own[k].text in ps
    {
      assert own[k].text == ps[k];
    }
    ProvenanceOfAppend(ParagraphBlocks(pages, m, source), own, paras, m);
  }

  /**
   * Every block of `r` names one of the first `n` pages and holds one of the paragraphs
   * `paras` lists for that page.
   */
  predicate FromOwnPages(r: seq<Block>, paras: seq<seq<string>>, n: nat) {
    forall k :: 0 <= k < |r| ==> 1 <= r[k].page <= n && r[k].page <= |paras| && r[k].text in paras[r[k].page - 1]
  }

  /** Blocks of the first `n - 1` pages followed by blocks of page `n` all come from their own pages. */
  lemma {:induction false} ProvenanceOfAppend(prev: seq<Block>, own: seq<Block>, paras: seq<seq<string>>, m: nat)
    requires m < |paras|
    requires FromOwnPages(prev, paras, m)
    requires forall k :: 0 <= k < |own| ==> own[k].page == m + 1 && own[k].text in paras[m]
    ensures FromOwnPages(prev + own, paras, m + 1)
  {
    forall k | 0 <= k < |prev + own|
      ensures 1 <= (prev + own)[k].page <= m + 1 && (prev + own)[k].text in paras[(prev + own)[k].page - 1]
    {
      if k >= |prev| {
        assert (prev + own)[k] == own[k - |prev|];
      }
    }
  }

  lemma {:induction false} ParagraphBlocksOfSnoc(paragraphs: seq<string>, j: nat, source: string, page: int)
    requires j < |paragraphs|
    ensures ParagraphBlocksOf(paragraphs[..j + 1], source, page)
      == ParagraphBlocksOf(paragraphs[..j], source, page) + [Block(paragraphs[j], source, page, Some(-1), Some("unknown"))]
  {
  }

  /** The inner loop of `paragraph_blocks_from_pages`: one block per paragraph of a page. */
  method AppendParagraphBlocks(blocks: seq<Block>, paragraphs: seq<string>, source: string, page: int)
    returns (r: seq<Block>)
    ensures r == blocks + ParagraphBlocksOf(paragraphs, source, page)
  {
    r := blocks;
    for j := 0 to |paragraphs|
      invariant r == blocks + ParagraphBlocksOf(paragraphs[..j], source, page)
    {
      ParagraphBlocksOfSnoc(paragraphs, j, source, page);
      r := r + [Block(paragraphs[j], source, page, Some(-1), Some("unknown"))];
    }
    assert paragraphs[..|paragraphs|] == paragraphs;
  }

  /** `paragraph_blocks_from_pages`. */
  method ParagraphBlocksFromPages(pages: seq<string>, source: string) returns (blocks: seq<Block>)
    ensures blocks == ParagraphBlocks(pages, |pages|, source)
  {
    blocks := [];
    for i := 0 to |pages|
      invariant blocks == ParagraphBlocks(pages, i, source)
    {
      ParagraphBlocksStep(pages, i, source);
      var text := pages[i];
      if text == "" {
        continue;
      }
      var paragraphs := Paragraphs(SplitBlankLines(text));
      blocks := AppendParagraphBlocks(blocks, paragraphs, source, i + 1);
    }
  }

  // ---------------------------------------------------------------- fixed windows

  /** `chunk_size` of `fixed_size_blocks`. */
  const FixedWindowWords: int := 180
  /** `chunk_size - overlap`: how far each window start moves on. */
  const FixedWindowStride: nat := 150

  /** The `"\n"`-joined text of the pages that have any. */
  function PagesWithText(pages: seq<string>): seq<string> {
    if pages == [] then []
    else PagesWithText(pages[..|pages| - 1]) + (if pages[|pages| - 1] != "" then [pages[|pages| - 1]] else [])
  }

  /** One fixed window becomes a block with no page, chapter or section. */
  function WindowBlocks(windows: seq<seq<string>>, source: string): (r: seq<Block>)
    ensures |r| == |windows|
    ensures forall k :: 0 <= k < |r| ==> r[k] == Block(Join(" ", windows[k]), source, -1, Some(-1), Some("unknown"))
  {
    if windows == [] then []
    else [Block(Join(" ", windows[0]), source, -1, Some(-1), Some("unknown"))] + WindowBlocks(windows[1..], source)
  }

  /** The words of the whole document. */
  function DocumentWords(pages: seq<string>): seq<string> {
    Words(Join("\n", PagesWithText(pages)))
  }

  /** What `fixed_size_blocks` returns. */
  function FixedBlocks(pages: seq<string>, source: string): seq<Block> {
    WindowBlocks(WindowsFrom(DocumentWords(pages), 0, FixedWindowWords, FixedWindowStride), source)
  }

  /** `fixed_size_blocks`: windows of 180 words whose starts are 150 words apart. */
  method FixedSizeBlocks(pages: seq<string>, source: string) returns (blocks: seq<Block>)
    ensures blocks == FixedBlocks(pages, source)
  {
    var fullText: seq<string> := [];
    for i := 0 to |pages|
      invariant fullText == PagesWithText(pages[..i])
    {
      assert pages[..i + 1][..i] == pages[..i];
      if pages[i] != "" {
        fullText := fullText + [pages[i]];
      }
    }
    assert pages[..|pages|] == pages;
    var words := Words(Join("\n", fullText));
    assert words == DocumentWords(pages);
    blocks := [];
    var chunkSize := 180;
    var overlap := 30;
    var start := 0;
    while start < |words|
      invariant blocks + WindowBlocks(WindowsFrom(words, start, FixedWindowWords, FixedWindowStride), source)
        == FixedBlocks(pages, source)
      decreases |words| - start
    {
      var end := start + chunkSize;
      var chunk := Join(" ", PySlice(words, start, end));
      FixedWindowStep(words, start, source);
      ghost var later := WindowBlocks(WindowsFrom(words, start + FixedWindowStride, FixedWindowWords, FixedWindowStride), source);
      var block := Block(chunk, source, -1, Some(-1), Some("unknown"));
      AppendAssoc(blocks, [block], later);
      blocks := blocks + [block];
      start := start + (chunkSize - overlap);
    }
  }

  /** The windows from `start` on: the one at `start`, then those from `start + 150` on. */
  lemma {:induction false} FixedWindowStep(words: seq<string>, start: nat, source: string)
    requires start < |words|
    ensures WindowBlocks(WindowsFrom(words, start, FixedWindowWords, FixedWindowStride), source)
      == [Block(Join(" ", PySlice(words, start, start + FixedWindowWords)), source, -1, Some(-1), Some("unknown"))]
         + WindowBlocks(WindowsFrom(words, start + FixedWindowStride, FixedWindowWords, FixedWindowStride), source)
  {
    var ws := WindowsFrom(words, start, FixedWindowWords, FixedWindowStride);
    var rest := WindowsFrom(words, start + FixedWindowStride, FixedWindowWords, FixedWindowStride);
    assert ws == [PySlice(words, start, start + FixedWindowWords)] + rest;
    assert ws[1..] == rest;
  }

  /**
   * The fixed windows start at word 0, 150, 300, ... below the word count: none for a
   * document without words, otherwise ceil(n / 150) of them. Window `k` holds exactly the
   * words `k * 150` up to `k * 150 + 180` (fewer at the end).
   */
  lemma {:induction false} FixedBlocksShape(pages: seq<string>, source: string)
    ensures var words := DocumentWords(pages);
      var bs := FixedBlocks(pages, source);
      && (bs == [] <==> words == [])
      && (bs != [] ==> (|bs| - 1) * FixedWindowStride < |words| <= |bs| * FixedWindowStride)
      && forall k :: 0 <= k < |bs| ==>
           Words(bs[k].text) == PySlice(words, k * FixedWindowStride, k * FixedWindowStride + FixedWindowWords)
           && |Words(bs[k].text)| <= FixedWindowWords
  {
    var words := DocumentWords(pages);
    var ws := WindowsFrom(words, 0, FixedWindowWords, FixedWindowStride);
    WindowsCount(words, 0, FixedWindowWords, FixedWindowStride);
    var bs := FixedBlocks(pages, source);
    forall k | 0 <= k < |bs|
      ensures Words(bs[k].text) == PySlice(words, k * FixedWindowStride, k * FixedWindowStride + FixedWindowWords)
      ensures |Words(bs[k].text)| <= FixedWindowWords
    {
      FixedBlockAt(pages, source, k);
    }
  }

  /** Fixed block `k` holds the words of window `k`, at most 180 of them. */
  lemma {:induction false} FixedBlockAt(pages: seq<string>, source: string, k: nat)
    requires k < |FixedBlocks(pages, source)|
    ensures var words, b := DocumentWords(pages), FixedBlocks(pages, source)[k];
      && Words(b.text) == PySlice(words, k * FixedWindowStride, k * FixedWindowStride + FixedWindowWords)
      && |Words(b.text)| <= FixedWindowWords
  {
    var words := DocumentWords(pages);
    var ws := WindowsFrom(words, 0, FixedWindowWords, FixedWindowStride);
    assert FixedBlocks(pages, source)[k].text == Join(" ", ws[k]);
    WordWindowAt(words, k);
  }

  /** Window `k` of a word list, joined and split again, is the slice at `k * stride`. */
  lemma {:induction false} WordWindowAt(words: seq<string>, k: nat)
    requires forall j :: 0 <= j < |words| ==> IsWord(words[j])
    requires k < |WindowsFrom(words, 0, FixedWindowWords, FixedWindowStride)|
    ensures var w := WindowsFrom(words, 0, FixedWindowWords, FixedWindowStride)[k];
      && Words(Join(" ", w)) == PySlice(words, k * FixedWindowStride, k * FixedWindowStride + FixedWindowWords)
      && |Words(Join(" ", w))| <= FixedWindowWords
  {
    var w := WindowsFrom(words, 0, FixedWindowWords, FixedWindowStride)[k];
    var a := k * FixedWindowStride;
    WindowAt(words, 0, FixedWindowWords, FixedWindowStride, k);
    SliceOfWords(words, a, a + FixedWindowWords);
    SplitJoinRoundTrip(w);
  }

  /** A slice of a word list is a word list of at most `b - a` words. */
  lemma {:induction false} SliceOfWords(words: seq<string>, a: nat, b: nat)
    requires a <= b
    requires forall k :: 0 <= k < |words| ==> IsWord(words[k])
    ensures var w := PySlice(words, a, b);
      |w| <= b - a && forall k :: 0 <= k < |w| ==> IsWord(w[k])
  {
  }

  // ---------------------------------------------------------------- fallback

  /** The selection of `pdf_to_chunks`: section blocks, else paragraph blocks, else windows. */
  function SelectBlocks(sectionBlocks: seq<Block>, hasSections: bool,
                        paragraphBlocks: seq<Block>, fixedBlocks: seq<Block>): seq<Block>
  {
    if hasSections then sectionBlocks
    else if paragraphBlocks != [] then paragraphBlocks
    else fixedBlocks
  }

  /** The blocks `pdf_to_chunks` returns for a document. */
  function DocumentBlocks(path: string, pages: seq<string>): seq<Block> {
    var r := ScanPages(pages, Min(SectionScanPages, |pages|), path, BoilerplateLines(pages));
    SelectBlocks(r.blocks, r.found, ParagraphBlocks(pages, |pages|, path), FixedBlocks(pages, path))
  }

  /** `pdf_to_chunks`: computes all three segmentations and keeps one of them. */
  method PdfToChunks(path: string, pages: seq<string>) returns (blocks: seq<Block>)
    ensures blocks == DocumentBlocks(path, pages)
  {
    var sectionBlocks, hasSections := ProcessPdf(path, pages);
    var paragraphBlocks := ParagraphBlocksFromPages(pages, path);
    var fixedBlocks := FixedSizeBlocks(pages, path);
    blocks := SelectBlocks(sectionBlocks, hasSections, paragraphBlocks, fixedBlocks);
  }

  /**
   * Exactly one segmentation is used, never a mix: the section blocks (even when empty)
   * exactly when a numbered heading occurs on one of the first six pages; otherwise the
   * paragraph blocks if there are any; otherwise the fixed windows.
   */
  lemma {:induction false} FallbackChoice(path: string, pages: seq<string>)
    ensures var n := Min(SectionScanPages, |pages|);
      var bp := BoilerplateLines(pages);
      var paragraphs := ParagraphBlocks(pages, |pages|, path);
      DocumentBlocks(path, pages)
        == if HeadingInPages(pages, n, bp) then ScanPages(pages, n, path, bp).blocks
           else if paragraphs != [] then paragraphs
           else FixedBlocks(pages, path)
  {
    FoundIffHeading(pages, Min(SectionScanPages, |pages|), path, BoilerplateLines(pages));
  }
}
