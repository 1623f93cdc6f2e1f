/**
 * The text normaliser of pdfreader.py: header/footer (boilerplate) detection over the whole
 * document, bullet stripping, and the line classifiers for figure/table captions, chapter
 * lines and numbered section headings, plus the soft-wrap merge rule.
 *
 * The regular expressions of the source are written out as string predicates. A line here
 * has already been split at line breaks, so it never contains '\n' and the regex `.`
 * matches each of its characters.
 */
module Normalizer {
  import opened Wrappers
  import opened Text
  import opened Seqs

  /** `HEADER_FOOTER_LINES`: how many lines at each end of a page are header/footer candidates. */
  const HeaderFooterLines: nat := 3

  /** `REPEAT_THRESHOLD`: the fraction of pages on which a line must recur to be boilerplate. */
  const RepeatThreshold: real := 0.6

  // ---------------------------------------------------------------- boilerplate

  /** `lines[:3]`. */
  function Heads(lines: seq<string>): seq<string> {
    if |lines| <= HeaderFooterLines then lines else lines[..HeaderFooterLines]
  }

  /** `lines[-3:]`: the whole list when it is shorter than three. */
  function Tails(lines: seq<string>): seq<string> {
    if |lines| <= HeaderFooterLines then lines else lines[|lines| - HeaderFooterLines..]
  }

  /** The `header_lines` list after the loop: the first lines of every page with text. */
  function HeaderLines(pages: seq<string>): seq<string> {
    if pages == [] then []
    else
      var last := pages[|pages| - 1];
      HeaderLines(pages[..|pages| - 1]) + (if last == "" then [] else Heads(StrippedLines(last)))
  }

  /** The `footer_lines` list after the loop: the last lines of every page with text. */
  function FooterLines(pages: seq<string>): seq<string> {
    if pages == [] then []
    else
      var last := pages[|pages| - 1];
      FooterLines(pages[..|pages| - 1]) + (if last == "" then [] else Tails(StrippedLines(last)))
  }

  /** `freq / total_pages >= REPEAT_THRESHOLD`; the source only divides for a line it counted. */
  predicate Frequent(freq: nat, totalPages: nat) {
    totalPages > 0 && freq as real / totalPages as real >= RepeatThreshold
  }

  /** The set comprehension over the `Counter` of header and footer lines. */
  function BoilerplateOf(edge: seq<string>, totalPages: nat): set<string> {
    set l | l in edge && Frequent(multiset(edge)[l], totalPages)
  }

  /** What `detect_boilerplate_lines` returns for a document's page texts. */
  function BoilerplateLines(pages: seq<string>): set<string> {
    BoilerplateOf(HeaderLines(pages) + FooterLines(pages), |pages|)
  }

  /**
   * `detect_boilerplate_lines`: extends the header and footer lists page by page, then
   * keeps the lines counted on at least 60% of the pages.
   */
  method DetectBoilerplateLines(pages: seq<string>) returns (boilerplate: set<string>)
    ensures boilerplate == BoilerplateLines(pages)
  {
    var headerLines: seq<string> := [];
    var footerLines: seq<string> := [];
    for i := 0 to |pages|
      invariant headerLines == HeaderLines(pages[..i])
      invariant footerLines == FooterLines(pages[..i])
    {
      EdgeLinesSnoc(pages, i);
      var text := pages[i];
      if text == "" {
        AppendEmpty(headerLines);
        AppendEmpty(footerLines);
        continue;
      }
      var lines := StrippedLines(text);
      headerLines := headerLines + Heads(lines);
      footerLines := footerLines + Tails(lines);
    }
    assert pages[..|pages|] == pages;
    boilerplate := BoilerplateOf(headerLines + footerLines, |pages|);
  }

  /** One more page extends both lists by that page's edges, or not at all when it is empty. */
  lemma {:induction false} EdgeLinesSnoc(pages: seq<string>, i: nat)
    requires i < |pages|
    ensures HeaderLines(pages[..i + 1])
      == HeaderLines(pages[..i]) + (if pages[i] == "" then [] else Heads(StrippedLines(pages[i])))
    ensures FooterLines(pages[..i + 1])
      == FooterLines(pages[..i]) + (if pages[i] == "" then [] else Tails(StrippedLines(pages[i])))
  {
    assert pages[..i + 1][..i] == pages[..i];
  }

  /** How often `l` is counted on one page: in its first three and in its last three lines. */
  function PageEdgeCount(page: string, l: string): nat {
    if page == "" then 0
    else multiset(Heads(StrippedLines(page)))[l] + multiset(Tails(StrippedLines(page)))[l]
  }

  /** The count of `l` summed over all pages. A short page counts in both slices. */
  function EdgeCount(pages: seq<string>, l: string): nat {
    if pages == [] then 0 else EdgeCount(pages[..|pages| - 1], l) + PageEdgeCount(pages[|pages| - 1], l)
  }

  lemma {:induction false} EdgeCountIsCounterValue(pages: seq<string>, l: string)
    ensures multiset(HeaderLines(pages) + FooterLines(pages))[l] == EdgeCount(pages, l)
  {
    if pages != [] {
      var init := pages[..|pages| - 1];
      EdgeCountIsCounterValue(init, l);
    }
  }

  /**
   * A line is boilerplate exactly when it is counted, over the pages' first three and last
   * three non-empty stripped lines, at least 0.6 times the number of pages (empty pages
   * included). A document without pages has no boilerplate.
   */
  lemma {:induction false} BoilerplateCharacterization(pages: seq<string>, l: string)
    ensures l in BoilerplateLines(pages) <==>
      |pages| > 0 && EdgeCount(pages, l) as real >= RepeatThreshold * |pages| as real
  {
    var edge := HeaderLines(pages) + FooterLines(pages);
    assert l in BoilerplateLines(pages) <==> l in edge && Frequent(multiset(edge)[l], |pages|);
    FrequentInEdge(edge, l, |pages|);
    EdgeCountIsCounterValue(pages, l);
  }

  lemma {:induction false} FrequentInEdge(edge: seq<string>, l: string, n: nat)
    ensures (l in edge && Frequent(multiset(edge)[l], n))
      <==> n > 0 && multiset(edge)[l] as real >= RepeatThreshold * n as real
  {
    if n > 0 {
      RatioAtLeast(multiset(edge)[l] as real, n as real, RepeatThreshold);
    }
  }

  lemma {:induction false} RatioAtLeast(c: real, n: real, t: real)
    requires n > 0.0
    ensures c / n >= t <==> c >= t * n
  {
    assert (c / n) * n == c;
    if c / n >= t {
      assert (c / n) * n >= t * n;
    } else {
      assert (c / n) * n < t * n;
    }
  }

  lemma {:induction false} HeaderLinesAreStripped(pages: seq<string>)
    ensures forall l :: l in HeaderLines(pages) ==> l != "" && Trimmed(l)
  {
    if pages != [] {
      HeaderLinesAreStripped(pages[..|pages| - 1]);
      var ls := StrippedLines(pages[|pages| - 1]);
      assert forall l :: l in Heads(ls) ==> l in ls;
    }
  }

  lemma {:induction false} FooterLinesAreStripped(pages: seq<string>)
    ensures forall l :: l in FooterLines(pages) ==> l != "" && Trimmed(l)
  {
    if pages != [] {
      FooterLinesAreStripped(pages[..|pages| - 1]);
      var ls := StrippedLines(pages[|pages| - 1]);
      assert forall l :: l in Tails(ls) ==> l in ls;
    }
  }

  /** Boilerplate lines are non-empty stripped lines of some page. */
  lemma {:induction false} BoilerplateIsStripped(pages: seq<string>, l: string)
    requires l in BoilerplateLines(pages)
    ensures l != "" && Trimmed(l)
  {
    HeaderLinesAreStripped(pages);
    FooterLinesAreStripped(pages);
  }

  /** A line that opens every page of a document is boilerplate. */
  lemma {:induction false} RunningHeaderIsBoilerplate(pages: seq<string>, l: string)
    requires |pages| > 0
    requires forall i :: 0 <= i < |pages| ==> StrippedLines(pages[i]) != [] && StrippedLines(pages[i])[0] == l
    ensures l in BoilerplateLines(pages)
  {
    EveryPageCounts(pages, l);
    BoilerplateCharacterization(pages, l);
  }

  lemma {:induction false} EveryPageCounts(pages: seq<string>, l: string)
    requires forall i :: 0 <= i < |pages| ==> StrippedLines(pages[i]) != [] && StrippedLines(pages[i])[0] == l
    ensures EdgeCount(pages, l) >= |pages|
  {
    if pages != [] {
      var last := pages[|pages| - 1];
      EveryPageCounts(pages[..|pages| - 1], l);
      assert StrippedLines(last) != [] && last != "";
      assert Heads(StrippedLines(last))[0] == l;
    }
  }

  /**
   * In a one-page document every line among the page's first three and last three is
   * boilerplate (it is counted at least once, and 1 >= 0.6).
   */
  lemma {:induction false} SinglePageEdgesAreBoilerplate(page: string, l: string)
    requires l in Heads(StrippedLines(page)) || l in Tails(StrippedLines(page))
    ensures l in BoilerplateLines([page])
  {
    NoLinesWithoutText();
    assert PageEdgeCount(page, l) >= 1;
    EdgeCountOne(page, l);
    BoilerplateCharacterization([page], l);
  }

  lemma {:induction false} NoLinesWithoutText()
    ensures StrippedLines("") == []
  {
    assert SplitLines("") == [];
  }

  lemma {:induction false} EdgeCountOne(page: string, l: string)
    ensures EdgeCount([page], l) == PageEdgeCount(page, l)
  {
    assert [page][..0] == [];
  }

  // ---------------------------------------------------------------- bullets

  /** The glyphs of the class `[•▪–—◦]`. */
  predicate IsBulletGlyph(c: char) {
    c == '\U{2022}' || c == '\U{25AA}' || c == '\U{2013}' || c == '\U{2014}' || c == '\U{25E6}'
  }

  /** `re.sub(r"^[•▪–—◦]+", "", line)`: drops the leading run of bullet glyphs. */
  function DropBulletRun(line: string): (r: string)
    ensures |r| <= |line| && r == line[|line| - |r|..]
    ensures r == [] || !IsBulletGlyph(r[0])
    decreases |line|
  {
    if line != [] && IsBulletGlyph(line[0]) then DropBulletRun(line[1..]) else line
  }

  /**
   * `normalize_bullet`: Unicode NFKC normalisation (the identity here), then the leading
   * glyph run is dropped and the rest stripped.
   */
  function NormalizeBullet(line: string): (r: string)
    ensures Trimmed(r)
  {
    Strip(DropBulletRun(line))
  }

  /** A stripped line that does not open with a bullet glyph is left as it is. */
  lemma {:induction false} NormalizePlainLine(line: string)
    requires Trimmed(line) && (line == [] || !IsBulletGlyph(line[0]))
    ensures NormalizeBullet(line) == line
  {
    StripTrimmed(line);
  }

  /** Only the first run of glyphs goes: "• • x" keeps its second bullet. */
  lemma {:induction false} LeftoverBullet(g: char, rest: string)
    requires IsBulletGlyph(g) && Trimmed(rest)
    ensures NormalizeBullet([g, ' ', g] + rest) == [g] + rest
  {
    var kept := [g] + rest;
    var spaced := [' '] + kept;
    assert [g, ' ', g] + rest == [g] + spaced;
    ConsTail(g, spaced);
    DropOneGlyph([g] + spaced);
    ConsTail(' ', kept);
    StripLeadingSpace(spaced);
    ConsTail(g, rest);
    GlyphNotSpace(g);
    ConsTrimmed(g, rest);
    StripTrimmed(kept);
  }

  lemma {:induction false} GlyphNotSpace(g: char)
    requires IsBulletGlyph(g)
    ensures !IsSpace(g)
  {
  }

  /** A non-space character in front of a stripped string leaves it stripped. */
  lemma {:induction false} ConsTrimmed(c: char, s: string)
    requires !IsSpace(c) && Trimmed(s)
    ensures Trimmed([c] + s)
  {
    assert ([c] + s)[0] == c;
    assert s != [] ==> ([c] + s)[|s|] == s[|s| - 1];
  }

  /** A single glyph followed by something else loses just that glyph. */
  lemma {:induction false} DropOneGlyph(line: string)
    requires |line| >= 2 && IsBulletGlyph(line[0]) && !IsBulletGlyph(line[1])
    ensures DropBulletRun(line) == line[1..]
  {
    assert line[1..][0] == line[1];
  }

  /** A leading space makes no difference to `strip()`. */
  lemma {:induction false} StripLeadingSpace(s: string)
    requires s != [] && IsSpace(s[0])
    ensures Strip(s) == Strip(s[1..])
  {
    assert LStrip(s) == LStrip(s[1..]);
  }

  // ---------------------------------------------------------------- classifiers

  /** Case-insensitive prefix test against a lower-case word (the `re.I` flag). */
  predicate StartsWithWord(s: string, word: string) {
    |word| <= |s| && Lower(s[..|word|]) == word
  }

  /** The end of the whitespace run starting at `i`. */
  function SpaceEnd(s: string, i: nat): (j: nat)
    requires i <= |s|
    ensures i <= j <= |s|
    ensures forall k :: i <= k < j ==> IsSpace(s[k])
    ensures j < |s| ==> !IsSpace(s[j])
    decreases |s| - i
  {
    if i < |s| && IsSpace(s[i]) then SpaceEnd(s, i + 1) else i
  }

  /** The end of the digit run starting at `i`. */
  function DigitEnd(s: string, i: nat): (j: nat)
    requires i <= |s|
    ensures i <= j <= |s|
    ensures AllDigits(s[i..j])
    ensures j < |s| ==> !IsDigit(s[j])
    decreases |s| - i
  {
    if i < |s| && IsDigit(s[i]) then DigitEnd(s, i + 1) else i
  }

  /** `\s+\d` at offset `i`. Digits are not whitespace, so the greedy run decides. */
  predicate SpacesThenDigit(s: string, i: nat)
    requires i <= |s|
  {
    var j := SpaceEnd(s, i);
    i < j < |s| && IsDigit(s[j])
  }

  /** `is_figure_or_table`: `^(Figure|Table)\s+\d+`, ignoring case. */
  predicate IsFigureOrTable(line: string)
    ensures IsFigureOrTable(line) ==>
      && (StartsWithWord(line, "figure") || StartsWithWord(line, "table"))
      && exists j :: 5 < j < |line| && IsDigit(line[j]) && IsSpace(line[j - 1])
  {
    var figure := StartsWithWord(line, "figure") && SpacesThenDigit(line, 6);
    var table := StartsWithWord(line, "table") && SpacesThenDigit(line, 5);
    assert figure ==> IsSpace(line[SpaceEnd(line, 6) - 1]);
    assert table ==> IsSpace(line[SpaceEnd(line, 5) - 1]);
    figure || table
  }

  /** "Figure" or "Table" in any case, then whitespace, then a digit: a caption line. */
  lemma {:induction false} FigureCaption(word: string, spaces: string, d: char, rest: string)
    requires (|word| == 6 && Lower(word) == "figure") || (|word| == 5 && Lower(word) == "table")
    requires spaces != [] && forall k :: 0 <= k < |spaces| ==> IsSpace(spaces[k])
    requires IsDigit(d)
    ensures IsFigureOrTable(word + spaces + [d] + rest)
  {
    var line := word + spaces + [d] + rest;
    var n := |word|;
    assert line[..n] == word;
    SpaceEndOver(line, n, n + |spaces|);
    assert line[n + |spaces|] == d;
  }

  /** A number glued to the word, as in "Figure1", does not make a caption. */
  lemma {:induction false} GluedNumberIsNoCaption(line: string)
    requires |line| > 6 && Lower(line[..6]) == "figure" && !IsSpace(line[6])
    ensures !IsFigureOrTable(line)
  {
    assert Lower(line[..6])[0] == 'f';
    assert SpaceEnd(line, 6) == 6;
  }

  /** `is_chapter`: the number `n` of a line opening with `CHAPTER\s+(\d+)`, ignoring case. */
  function ChapterNumber(line: string): (r: Option<nat>)
    ensures r.Some? ==> StartsWithWord(line, "chapter")
    ensures r.Some? ==>
      exists j :: 7 < j < |line| && IsSpace(line[j - 1]) && IsDigit(line[j])
        && r.value == DecimalValue(line[j..DigitEnd(line, j)])
  {
    if StartsWithWord(line, "chapter") then
      var j := SpaceEnd(line, 7);
      if 7 < j < |line| && IsDigit(line[j]) then
        assert IsSpace(line[j - 1]);
        Some(DecimalValue(line[j..DigitEnd(line, j)]))
      else None
    else None
  }

  lemma {:induction false} SpaceEndOver(s: string, i: nat, k: nat)
    requires i <= k <= |s| && forall m :: i <= m < k ==> IsSpace(s[m])
    requires k < |s| ==> !IsSpace(s[k])
    ensures SpaceEnd(s, i) == k
    decreases k - i
  {
    if i < k {
      SpaceEndOver(s, i + 1, k);
    }
  }

  lemma {:induction false} DigitEndOver(s: string, i: nat, k: nat)
    requires i <= k <= |s| && AllDigits(s[i..k])
    requires k < |s| ==> !IsDigit(s[k])
    ensures DigitEnd(s, i) == k
    decreases k - i
  {
    if i < k {
      assert IsDigit(s[i..k][0]);
      assert s[i + 1..k] == s[i..k][1..];
      DigitEndOver(s, i + 1, k);
    }
  }

  /**
   * A chapter line in any letter case, with any whitespace run before its number, reads
   * back as that number (leading zeros aside, the number as printed).
   */
  lemma {:induction false} ChapterLineNumber(word: string, spaces: string, n: nat, rest: string)
    requires |word| == 7 && Lower(word) == "chapter"
    requires spaces != [] && forall k :: 0 <= k < |spaces| ==> IsSpace(spaces[k])
    requires rest == [] || !IsDigit(rest[0])
    ensures ChapterNumber(word + spaces + NatToString(n) + rest) == Some(n)
  {
    var line := word + spaces + NatToString(n) + rest;
    var digits := NatToString(n);
    var j := 7 + |spaces|;
    var e := j + |digits|;
    assert line[..7] == word;
    assert line[7..j] == spaces;
    SpaceEndOver(line, 7, j);
    assert line[j..e] == digits;
    DigitEndOver(line, j, e);
    DecimalRoundTrip(n);
  }

  // ---------------------------------------------------------------- section headings

  /** `\d+(\.\d+)+`: digits, then at least one group of a dot and digits. */
  predicate IsDotted(g: string) {
    |g| > 0 && IsDigit(g[0]) && DigitsThenGroups(g[1..])
  }

  /** `\d*(\.\d+)+`. */
  predicate DigitsThenGroups(t: string)
    decreases |t|, 2
  {
    (t != [] && IsDigit(t[0]) && DigitsThenGroups(t[1..])) || Groups(t)
  }

  /** `(\.\d+)+`. */
  predicate Groups(t: string)
    decreases |t|, 1
  {
    |t| >= 2 && t[0] == '.' && IsDigit(t[1]) && GroupTail(t[2..])
  }

  /** `\d*(\.\d+)*`. */
  predicate GroupTail(t: string)
    decreases |t|, 2
  {
    t == [] || (IsDigit(t[0]) && GroupTail(t[1..])) || Groups(t)
  }

  /**
   * The longest `n <= upTo`, `n >= 1`, for which `line[..n]` matches `\d+(\.\d+)+`: the
   * order in which the regex engine backtracks over the number part.
   */
  function LongestDotted(line: string, upTo: nat): (r: Option<nat>)
    requires upTo <= |line|
    ensures r.Some? ==> 0 < r.value <= upTo && IsDotted(line[..r.value])
    ensures r.Some? ==> forall n :: r.value < n <= upTo ==> !IsDotted(line[..n])
    ensures r.None? ==> forall n :: 0 < n <= upTo ==> !IsDotted(line[..n])
    decreases upTo
  {
    if upTo == 0 then None
    else if IsDotted(line[..upTo]) then Some(upTo)
    else LongestDotted(line, upTo - 1)
  }

  /**
   * `is_section_heading`: `^(\d+(\.\d+)+)\s*(.+)` must match, with a non-empty remainder
   * after the number; the result is "<number> <stripped remainder>".
   */
  function SectionHeading(line: string): (r: Option<string>)
    ensures r.Some? <==> exists n :: 0 < n < |line| && IsDotted(line[..n])
    ensures r.Some? ==> exists n :: (0 < n < |line| && IsDotted(line[..n])
      && r.value == line[..n] + " " + Strip(line[n..])
      && forall m :: n < m < |line| ==> !IsDotted(line[..m]))
  {
    if |line| == 0 then None
    else
      match LongestDotted(line, |line| - 1)
      case None => None
      case Some(n) => Some(line[..n] + " " + Strip(line[n..]))
  }

  /** The number part of a heading is the longest dotted prefix that leaves text after it. */
  lemma {:induction false} HeadingAt(line: string, n: nat)
    requires 0 < n < |line| && IsDotted(line[..n])
    requires forall m :: n < m < |line| ==> !IsDotted(line[..m])
    ensures SectionHeading(line) == Some(line[..n] + " " + Strip(line[n..]))
  {
    var r := SectionHeading(line);
    var n' :| 0 < n' < |line| && IsDotted(line[..n'])
      && r.value == line[..n'] + " " + Strip(line[n'..])
      && forall m :: n' < m < |line| ==> !IsDotted(line[..m]);
    assert n' == n;
  }

  /** A line none of whose proper prefixes is a dotted number is no heading. */
  lemma {:induction false} NoHeading(line: string)
    requires forall m :: 0 < m < |line| ==> !IsDotted(line[..m])
    ensures SectionHeading(line) == None
  {
  }

  /** No prefix reaching past a character other than a digit or a dot is a dotted number. */
  lemma {:induction false} NotDottedPast(line: string, n: nat)
    requires n < |line| && !IsDigit(line[n]) && line[n] != '.'
    ensures forall m :: n < m <= |line| ==> !IsDotted(line[..m])
  {
    forall m | n < m <= |line| ensures !IsDotted(line[..m]) {
      assert line[..m][n] == line[n];
      NotDottedWith(line[..m], n);
    }
  }

  lemma {:induction false} StripAfterSpace(title: string)
    requires title != [] && Trimmed(title)
    ensures Strip(" " + title) == title
  {
    var rest := " " + title;
    assert IsSpace(rest[0]) && rest[1..] == title;
    assert LStrip(rest) == LStrip(title);
    StripTrimmed(title);
  }

  /**
   * "<number> <title>" is a heading and reads back as itself. Any dotted number counts,
   * so a sentence such as "3.14 is pi" is taken for a heading too.
   */
  lemma {:induction false} NumberedTitleIsHeading(g: string, title: string)
    requires IsDotted(g) && title != [] && Trimmed(title)
    ensures SectionHeading(g + " " + title) == Some(g + " " + title)
  {
    var line := g + " " + title;
    var n := |g|;
    assert line[..n] == g && line[n..] == " " + title;
    NotDottedPast(line, n);
    HeadingAt(line, n);
    StripAfterSpace(title);
  }

  /**
   * With nothing after the number the regex backtracks into it: "1.23" is read as the
   * number "1.2" and the title "3".
   */
  lemma {:induction false} HeadingBacktracks(line: string)
    requires |line| == 4 && IsDigit(line[0]) && line[1] == '.' && IsDigit(line[2]) && IsDigit(line[3])
    ensures SectionHeading(line) == Some(line[..3] + " " + line[3..])
  {
    ShortDottedPrefix(line);
    HeadingAt(line, 3);
    DigitStripped(line[3..]);
  }

  lemma {:induction false} ShortDottedPrefix(line: string)
    requires |line| == 4 && IsDigit(line[0]) && line[1] == '.' && IsDigit(line[2])
    ensures IsDotted(line[..3])
  {
    OneDotted(line[0], line[2]);
    assert line[..3] == [line[0], '.', line[2]];
  }

  /** A lone digit is left alone by `strip()`. */
  lemma {:induction false} DigitStripped(s: string)
    requires |s| == 1 && IsDigit(s[0])
    ensures Strip(s) == s
  {
    assert Trimmed(s);
    StripTrimmed(s);
  }

  lemma {:induction false} OneDotted(a: char, b: char)
    requires IsDigit(a) && IsDigit(b)
    ensures IsDotted([a, '.', b])
  {
    assert [a, '.', b][1..] == ['.', b] && ['.', b][2..] == [];
    assert GroupTail([]);
    assert Groups(['.', b]);
    assert DigitsThenGroups(['.', b]);
  }

  /** A number without a dotted part never starts a heading. */
  lemma {:induction false} UndottedNumberIsNoHeading(digits: string, rest: string)
    requires AllDigits(digits)
    requires rest == [] || (!IsDigit(rest[0]) && rest[0] != '.')
    ensures SectionHeading(digits + rest) == None
  {
    var line := digits + rest;
    var d := |digits|;
    forall m | 0 < m <= d && m < |line| ensures !IsDotted(line[..m]) {
      assert forall k :: 0 <= k < m ==> line[..m][k] == digits[k];
      NoDotNotDotted(line[..m]);
    }
    if rest != [] {
      assert line[d] == rest[0];
      NotDottedPast(line, d);
    }
    NoHeading(line);
  }

  /** `\d+(\.\d+)+` needs a dot. */
  lemma {:induction false} NoDotNotDotted(g: string)
    requires forall k :: 0 <= k < |g| ==> g[k] != '.'
    ensures !IsDotted(g)
  {
    if IsDotted(g) {
      DottedHasDot(g[1..]);
    }
  }

  lemma {:induction false} DottedHasDot(t: string)
    requires DigitsThenGroups(t)
    ensures exists k :: 0 <= k < |t| && t[k] == '.'
    decreases |t|
  {
    if t != [] && IsDigit(t[0]) && DigitsThenGroups(t[1..]) {
      DottedHasDot(t[1..]);
      var k :| 0 <= k < |t[1..]| && t[1..][k] == '.';
      assert t[k + 1] == '.';
    } else {
      assert t[0] == '.';
    }
  }

  /** A dotted number has no character other than digits and dots. */
  lemma {:induction false} NotDottedWith(g: string, k: nat)
    requires k < |g| && !IsDigit(g[k]) && g[k] != '.'
    ensures !IsDotted(g)
  {
    if IsDotted(g) {
      DottedChars(g);
    }
  }

  lemma {:induction false} DottedChars(g: string)
    requires IsDotted(g)
    ensures forall k :: 0 <= k < |g| ==> IsDigit(g[k]) || g[k] == '.'
  {
    DigitsThenGroupsChars(g[1..]);
    assert forall k :: 1 <= k < |g| ==> g[k] == g[1..][k - 1];
  }

  lemma {:induction false} DigitsThenGroupsChars(t: string)
    requires DigitsThenGroups(t)
    ensures forall k :: 0 <= k < |t| ==> IsDigit(t[k]) || t[k] == '.'
    decreases |t|, 2
  {
    if t != [] && IsDigit(t[0]) && DigitsThenGroups(t[1..]) {
      DigitsThenGroupsChars(t[1..]);
      assert forall k :: 1 <= k < |t| ==> t[k] == t[1..][k - 1];
    } else {
      GroupsChars(t);
    }
  }

  lemma {:induction false} GroupsChars(t: string)
    requires Groups(t)
    ensures forall k :: 0 <= k < |t| ==> IsDigit(t[k]) || t[k] == '.'
    decreases |t|, 1
  {
    GroupTailChars(t[2..]);
    assert forall k :: 2 <= k < |t| ==> t[k] == t[2..][k - 2];
  }

  lemma {:induction false} GroupTailChars(t: string)
    requires GroupTail(t)
    ensures forall k :: 0 <= k < |t| ==> IsDigit(t[k]) || t[k] == '.'
    decreases |t|, 2
  {
    if t == [] {
    } else if IsDigit(t[0]) && GroupTail(t[1..]) {
      GroupTailChars(t[1..]);
      assert forall k :: 1 <= k < |t| ==> t[k] == t[1..][k - 1];
    } else {
      GroupsChars(t);
    }
  }

  // ---------------------------------------------------------------- soft wraps

  /**
   * `should_merge(prev, curr)`: a line continues the previous buffered line when that one
   * does not end a sentence and this one starts with a lower-case letter.
   */
  predicate ShouldMerge(prev: string, curr: string)
    ensures ShouldMerge(prev, curr) ==> curr != [] && !IsSpace(curr[0]) && !IsDigit(curr[0])
    ensures prev != [] && prev[|prev| - 1] == '.' ==> !ShouldMerge(prev, curr)
  {
    !(EndsWith(prev, ".") || EndsWith(prev, "?") || EndsWith(prev, "!"))
    && curr != [] && IsLower(curr[0])
  }

  /**
   * A line is joined to the previous one exactly when the previous one does not end in
   * '.', '?' or '!' and the line itself begins with a lower-case letter.
   */
  lemma {:induction false} ShouldMergeByLastChar(prev: string, curr: string)
    ensures ShouldMerge(prev, curr) <==>
      && (prev == [] || (prev[|prev| - 1] != '.' && prev[|prev| - 1] != '?' && prev[|prev| - 1] != '!'))
      && curr != [] && 'a' <= curr[0] <= 'z'
  {
    if prev != [] {
      var last := prev[|prev| - 1];
      assert prev[|prev| - 1..] == [last];
      assert EndsWith(prev, ".") <==> last == '.';
      assert EndsWith(prev, "?") <==> last == '?';
      assert EndsWith(prev, "!") <==> last == '!';
    }
  }
}
