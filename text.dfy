/**
 * The Python `str` operations the ingestion and query code relies on, over `seq<char>`:
 * `isspace`, `strip`, `split()`, `split("\n\n")`, `splitlines`, `join`, `lower`,
 * `startswith`/`endswith`, the `in` substring test, `str(int)` and `int(str)`.
 */
module Text {
  import opened Wrappers
  import opened Seqs

  /** `c.isspace()`: Python's whitespace characters. */
  predicate IsSpace(c: char) {
    c == ' ' || c == '\t' || c == '\n' || c == '\r' || c == '\U{B}' || c == '\U{C}'
    || ('\U{1C}' <= c <= '\U{1F}') || c == '\U{85}' || c == '\U{A0}' || c == '\U{1680}'
    || ('\U{2000}' <= c <= '\U{200A}') || c == '\U{2028}' || c == '\U{2029}'
    || c == '\U{202F}' || c == '\U{205F}' || c == '\U{3000}'
  }

  /** The characters at which `str.splitlines()` ends a line. Each of them is whitespace. */
  predicate IsLineBreak(c: char)
    ensures IsLineBreak(c) ==> IsSpace(c)
  {
    c == '\n' || c == '\r' || c == '\U{B}' || c == '\U{C}' || ('\U{1C}' <= c <= '\U{1E}')
    || c == '\U{85}' || c == '\U{2028}' || c == '\U{2029}'
  }

  predicate IsDigit(c: char) { '0' <= c <= '9' }

  /** `c.islower()`, for ASCII letters. */
  predicate IsLower(c: char) { 'a' <= c <= 'z' }

  function LowerChar(c: char): char {
    if 'A' <= c <= 'Z' then (c as int + 32) as char else c
  }

  /** `s.lower()`, for ASCII letters. */
  function Lower(s: string): (r: string)
    ensures |r| == |s| && forall i :: 0 <= i < |s| ==> r[i] == LowerChar(s[i])
  {
    seq(|s|, i requires 0 <= i < |s| => LowerChar(s[i]))
  }

  predicate StartsWith(s: string, prefix: string) {
    |prefix| <= |s| && s[..|prefix|] == prefix
  }

  predicate EndsWith(s: string, suffix: string) {
    |suffix| <= |s| && s[|s| - |suffix|..] == suffix
  }

  /** `t in s` for strings. */
  predicate Contains(s: string, t: string) {
    exists i | 0 <= i <= |s| - |t| :: OccursAt(s, t, i)
  }

  predicate OccursAt(s: string, t: string, i: int) {
    0 <= i <= |s| - |t| && s[i..i + |t|] == t
  }

  // ---------------------------------------------------------------- strip

  /** A string with no whitespace at either end, i.e. one `strip()` leaves alone. */
  predicate Trimmed(s: string) {
    s == [] || (!IsSpace(s[0]) && !IsSpace(s[|s| - 1]))
  }

  function LStrip(s: string): (r: string)
    ensures |r| <= |s| && r == s[|s| - |r|..]
    ensures r == [] || !IsSpace(r[0])
    ensures forall k :: 0 <= k < |s| - |r| ==> IsSpace(s[k])
    decreases |s|
  {
    if s != [] && IsSpace(s[0]) then LStrip(s[1..]) else s
  }

  function RStrip(s: string): (r: string)
    ensures |r| <= |s| && r == s[..|r|]
    ensures r == [] || !IsSpace(r[|r| - 1])
    ensures forall k :: |r| <= k < |s| ==> IsSpace(s[k])
    decreases |s|
  {
    if s != [] && IsSpace(s[|s| - 1]) then RStrip(s[..|s| - 1]) else s
  }

  /** `s.strip()`: `s` without its leading and trailing whitespace. */
  function Strip(s: string): (r: string)
    ensures Trimmed(r) && |r| <= |s|
  {
    var l := LStrip(s);
    var r := RStrip(l);
    assert r == [] || r[0] == l[0];
    r
  }

  lemma {:induction false} StripTrimmed(s: string)
    requires Trimmed(s)
    ensures Strip(s) == s
  {
    assert LStrip(s) == s;
    assert RStrip(s) == s;
  }

  /** Stripping twice is stripping once. */
  lemma {:induction false} StripIdempotent(s: string)
    ensures Strip(Strip(s)) == Strip(s)
  {
    StripTrimmed(Strip(s));
  }

  // ---------------------------------------------------------------- split()

  /** A piece that `str.split()` can return: non-empty and free of whitespace. */
  predicate IsWord(w: string) {
    w != [] && forall k :: 0 <= k < |w| ==> !IsSpace(w[k])
  }

  function WordEnd(s: string, i: nat): (j: nat)
    requires i <= |s|
    ensures i <= j <= |s|
    ensures forall k :: i <= k < j ==> !IsSpace(s[k])
    ensures j < |s| ==> IsSpace(s[j])
    decreases |s| - i
  {
    if i == |s| || IsSpace(s[i]) then i else WordEnd(s, i + 1)
  }

  /** `s.split()`: the maximal runs of non-whitespace characters, in order. */
  function Words(s: string): (ws: seq<string>)
    ensures forall k :: 0 <= k < |ws| ==> IsWord(ws[k])
    decreases |s|
  {
    if s == [] then []
    else if IsSpace(s[0]) then Words(s[1..])
    else
      var k := WordEnd(s, 0);
      [s[..k]] + Words(s[k..])
  }

  /** `len(s.split())`, the token count used for chunk sizes. */
  function WordCount(s: string): nat {
    |Words(s)|
  }

  lemma {:induction false} WordEndAfterPrefix(a: string, b: string, i: nat)
    requires i <= |a|
    requires exists k :: i <= k < |a| && IsSpace(a[k])
    ensures WordEnd(a + b, i) == WordEnd(a, i)
    decreases |a| - i
  {
    if i < |a| && !IsSpace(a[i]) {
      WordEndAfterPrefix(a, b, i + 1);
    }
  }

  /** Words never straddle a whitespace character. */
  lemma {:induction false} WordsAroundSpace(a: string, c: char, b: string)
    requires IsSpace(c)
    ensures Words(a + [c] + b) == Words(a) + Words(b)
    decreases |a|
  {
    var s := a + [c] + b;
    if a == [] {
      assert s == [c] + b;
      ConsTail(c, b);
      WordsSkipSpace(s);
      EmptyAppend(Words(b));
    } else {
      ConsParts(a, c, b);
      if IsSpace(a[0]) {
        WordsSkipSpace(s);
        WordsSkipSpace(a);
        WordsAroundSpace(a[1..], c, b);
      } else {
        var k := WordEnd(a, 0);
        WordsTakeWord(a);
        if k < |a| {
          WordBeforeSpace(a, c, b);
          WordsTakeWord(s);
          WordsAroundSpace(a[k..], c, b);
          AppendAssoc([a[..k]], Words(a[k..]), Words(b));
        } else {
          WordsAfterWholeWord(a, c, b);
          assert a[..k] == a && a[k..] == [];
          AppendEmpty([a]);
        }
      }
    }
  }

  lemma {:induction false} ConsParts(a: string, c: char, b: string)
    requires a != []
    ensures (a + [c] + b)[0] == a[0] && (a + [c] + b)[1..] == a[1..] + [c] + b
  {
  }

  /** `split()` skips a leading whitespace character. */
  lemma {:induction false} WordsSkipSpace(s: string)
    requires s != [] && IsSpace(s[0])
    ensures Words(s) == Words(s[1..])
  {
  }

  /** `split()` takes the leading word, then splits what follows it. */
  lemma {:induction false} WordsTakeWord(s: string)
    requires s != [] && !IsSpace(s[0])
    ensures Words(s) == [s[..WordEnd(s, 0)]] + Words(s[WordEnd(s, 0)..])
  {
  }

  /** A word that ends inside `a` ends at the same place in `a + [c] + b`. */
  lemma {:induction false} WordBeforeSpace(a: string, c: char, b: string)
    requires a != [] && WordEnd(a, 0) < |a|
    ensures var s, k := a + [c] + b, WordEnd(a, 0);
      WordEnd(s, 0) == k && s[..k] == a[..k] && s[k..] == a[k..] + [c] + b
  {
    var s, k := a + [c] + b, WordEnd(a, 0);
    WordEndAfterPrefix(a, [c] + b, 0);
    assert a + ([c] + b) == s;
    assert s[..k] == a[..k];
    assert s[k..] == a[k..] + [c] + b;
  }

  lemma {:induction false} WordsAfterWholeWord(a: string, c: char, b: string)
    requires IsSpace(c) && a != [] && !IsSpace(a[0]) && WordEnd(a, 0) == |a|
    ensures Words(a + [c] + b) == [a] + Words(b)
  {
    var s := a + [c] + b;
    assert WordEnd(s, 0) == |a| by {
      WordEndFull(a, [c] + b, 0);
      assert a + ([c] + b) == s;
    }
    assert s[0] == a[0];
    assert s[..|a|] == a;
    assert s[|a|..] == [c] + b;
    assert Words([c] + b) == Words(b) by { assert ([c] + b)[0] == c && ([c] + b)[1..] == b; }
  }

  lemma {:induction false} WordEndFull(a: string, b: string, i: nat)
    requires i <= |a| && WordEnd(a, i) == |a|
    requires b != [] && IsSpace(b[0])
    ensures WordEnd(a + b, i) == |a|
    decreases |a| - i
  {
    if i < |a| {
      WordEndFull(a, b, i + 1);
    }
  }

  lemma {:induction false} WordsAfterSpaces(sp: string, b: string)
    requires forall k :: 0 <= k < |sp| ==> IsSpace(sp[k])
    ensures Words(sp + b) == Words(b)
    decreases |sp|
  {
    if sp != [] {
      assert IsSpace(sp[0]);
      assert (sp + b)[0] == sp[0] && (sp + b)[1..] == sp[1..] + b;
      assert Words(sp + b) == Words((sp + b)[1..]);
      WordsAfterSpaces(sp[1..], b);
    } else {
      assert sp + b == b;
    }
  }

  /** Gluing two texts with a whitespace separator concatenates their words. */
  lemma {:induction false} WordsAroundSeparator(a: string, sep: string, b: string)
    requires sep != [] && forall k :: 0 <= k < |sep| ==> IsSpace(sep[k])
    ensures Words(a + sep + b) == Words(a) + Words(b)
  {
    assert a + sep + b == a + [sep[0]] + (sep[1..] + b);
    WordsAroundSpace(a, sep[0], sep[1..] + b);
    WordsAfterSpaces(sep[1..], b);
  }

  /** A word splits to itself. */
  lemma {:induction false} WordsOfWord(w: string)
    requires IsWord(w)
    ensures Words(w) == [w]
  {
    assert WordEnd(w, 0) == |w| by { WordEndOfWord(w, 0); }
    assert w[..|w|] == w && w[|w|..] == [];
    assert Words(w) == [w[..|w|]] + Words(w[|w|..]);
  }

  lemma {:induction false} WordEndOfWord(w: string, i: nat)
    requires IsWord(w) && i <= |w|
    ensures WordEnd(w, i) == |w|
    decreases |w| - i
  {
    if i < |w| {
      WordEndOfWord(w, i + 1);
    }
  }

  // ---------------------------------------------------------------- join

  /** `sep.join(xs)`. */
  function Join(sep: string, xs: seq<string>): string {
    if |xs| == 0 then ""
    else if |xs| == 1 then xs[0]
    else Join(sep, xs[..|xs| - 1]) + sep + xs[|xs| - 1]
  }

  /** The words of each text in turn. */
  function WordsOfAll(xs: seq<string>): seq<string> {
    if xs == [] then [] else WordsOfAll(xs[..|xs| - 1]) + Words(xs[|xs| - 1])
  }

  /** Joining texts with a whitespace separator neither creates nor loses a word. */
  lemma {:induction false} WordsOfJoin(sep: string, xs: seq<string>)
    requires sep != [] && forall k :: 0 <= k < |sep| ==> IsSpace(sep[k])
    ensures Words(Join(sep, xs)) == WordsOfAll(xs)
  {
    if |xs| == 0 {
    } else if |xs| == 1 {
      assert WordsOfAll(xs) == WordsOfAll(xs[..0]) + Words(xs[0]);
    } else {
      WordsOfJoin(sep, xs[..|xs| - 1]);
      WordsAroundSeparator(Join(sep, xs[..|xs| - 1]), sep, xs[|xs| - 1]);
    }
  }

  /** `" ".join(ws).split() == ws` for words `ws`. */
  lemma {:induction false} SplitJoinRoundTrip(ws: seq<string>)
    requires forall k :: 0 <= k < |ws| ==> IsWord(ws[k])
    ensures Words(Join(" ", ws)) == ws
  {
    WordsOfJoin(" ", ws);
    WordsOfAllWords(ws);
  }

  lemma {:induction false} WordsOfAllWords(ws: seq<string>)
    requires forall k :: 0 <= k < |ws| ==> IsWord(ws[k])
    ensures WordsOfAll(ws) == ws
  {
    if ws != [] {
      WordsOfAllWords(ws[..|ws| - 1]);
      WordsOfWord(ws[|ws| - 1]);
    }
  }

  /** Joining words with single spaces leaves nothing for `strip()` to remove. */
  lemma {:induction false} JoinWordsTrimmed(ws: seq<string>)
    requires forall k :: 0 <= k < |ws| ==> IsWord(ws[k])
    ensures Trimmed(Join(" ", ws))
    ensures ws != [] ==> Join(" ", ws) != []
  {
    if |ws| > 1 {
      JoinWordsTrimmed(ws[..|ws| - 1]);
    }
  }

  // ---------------------------------------------------------------- line splitting

  function LineEnd(s: string, i: nat): (j: nat)
    requires i <= |s|
    ensures i <= j <= |s|
    ensures forall k :: i <= k < j ==> !IsLineBreak(s[k])
    ensures j < |s| ==> IsLineBreak(s[j])
    decreases |s| - i
  {
    if i == |s| || IsLineBreak(s[i]) then i else LineEnd(s, i + 1)
  }

  /**
   * `s.splitlines()`, breaking at every line-break character. Python treats "\r\n" as one
   * break; here it yields an extra empty line, which every caller discards.
   */
  function SplitLines(s: string): (ls: seq<string>)
    ensures forall k :: 0 <= k < |ls| ==> forall m :: 0 <= m < |ls[k]| ==> !IsLineBreak(ls[k][m])
    decreases |s|
  {
    if s == [] then []
    else
      var k := LineEnd(s, 0);
      if k == |s| then [s] else [s[..k]] + SplitLines(s[k + 1..])
  }

  /** `[l.strip() for l in text.splitlines() if l.strip()]`. */
  function StrippedLines(text: string): (ls: seq<string>)
    ensures forall k :: 0 <= k < |ls| ==> ls[k] != "" && Trimmed(ls[k])
  {
    NonEmptyStripped(SplitLines(text))
  }

  function NonEmptyStripped(ls: seq<string>): (r: seq<string>)
    ensures forall k :: 0 <= k < |r| ==> r[k] != "" && Trimmed(r[k])
    ensures |r| <= |ls|
  {
    if ls == [] then []
    else
      var rest := NonEmptyStripped(ls[1..]);
      if Strip(ls[0]) != "" then [Strip(ls[0])] + rest else rest
  }

  /** A trimmed string holding no line break is its own single stripped line. */
  lemma {:induction false} StrippedLinesOfLine(l: string)
    requires l != "" && Trimmed(l)
    requires forall m :: 0 <= m < |l| ==> !IsLineBreak(l[m])
    ensures StrippedLines(l) == [l]
  {
    assert LineEnd(l, 0) == |l| by { LineEndNoBreak(l, 0); }
    StripTrimmed(l);
    assert NonEmptyStripped([l]) == [Strip(l)] + NonEmptyStripped([]);
  }

  lemma {:induction false} LineEndNoBreak(l: string, i: nat)
    requires i <= |l| && forall m :: 0 <= m < |l| ==> !IsLineBreak(l[m])
    ensures LineEnd(l, i) == |l|
    decreases |l| - i
  {
    if i < |l| {
      LineEndNoBreak(l, i + 1);
    }
  }

  // ---------------------------------------------------------------- split("\n\n")

  function BlankLineAt(s: string, i: nat): (j: nat)
    requires i <= |s|
    ensures i <= j <= |s|
    ensures j < |s| ==> j + 1 < |s| && s[j] == '\n' && s[j + 1] == '\n'
    ensures forall k :: i <= k < j && k + 1 < |s| ==> !(s[k] == '\n' && s[k + 1] == '\n')
    decreases |s| - i
  {
    if i + 1 >= |s| then |s|
    else if s[i] == '\n' && s[i + 1] == '\n' then i
    else BlankLineAt(s, i + 1)
  }

  /** `s.split("\n\n")`: left to right, non-overlapping; always at least one piece. */
  function SplitBlankLines(s: string): (ps: seq<string>)
    ensures |ps| >= 1
    decreases |s|
  {
    var k := BlankLineAt(s, 0);
    if k == |s| then [s] else [s[..k]] + SplitBlankLines(s[k + 2..])
  }

  // ---------------------------------------------------------------- numbers

  function DigitValue(c: char): nat
    requires IsDigit(c)
  {
    c as int - '0' as int
  }

  predicate AllDigits(s: string) {
    forall k :: 0 <= k < |s| ==> IsDigit(s[k])
  }

  /** The value of a run of decimal digits (`int("007") == 7`). */
  function DecimalValue(ds: string): nat
    requires AllDigits(ds)
  {
    if ds == [] then 0 else DecimalValue(ds[..|ds| - 1]) * 10 + DigitValue(ds[|ds| - 1])
  }

  function DigitChar(d: nat): (c: char)
    requires d < 10
    ensures IsDigit(c) && DigitValue(c) == d
  {
    ('0' as int + d) as char
  }

  /** `str(n)` for a natural number: its decimal digits, without leading zeros. */
  function NatToString(n: nat): (s: string)
    ensures s != [] && AllDigits(s)
    ensures |s| > 1 ==> s[0] != '0'
  {
    if n < 10 then [DigitChar(n)] else NatToString(n / 10) + [DigitChar(n % 10)]
  }

  /** Reading back the digits of `str(n)` gives `n`. */
  lemma {:induction false} DecimalRoundTrip(n: nat)
    ensures DecimalValue(NatToString(n)) == n
  {
    if n >= 10 {
      DecimalRoundTrip(n / 10);
      var s := NatToString(n);
      assert s[..|s| - 1] == NatToString(n / 10);
    }
  }

  /** `str(i)` for an integer. */
  function IntToString(i: int): (s: string)
    ensures s != []
  {
    if i < 0 then "-" + NatToString(-i) else NatToString(i)
  }

  /**
   * `int(s)` for a string: optional surrounding whitespace, then a signed run of digits;
   * `None` where Python raises `ValueError`.
   */
  function ParseInt(s: string): Option<int> {
    ParseSigned(Strip(s))
  }

  /** An optional sign, then at least one digit and nothing else. */
  function ParseSigned(t: string): Option<int> {
    if t != [] && (t[0] == '-' || t[0] == '+') then
      var ds := t[1..];
      if ds != [] && AllDigits(ds) then
        Some(if t[0] == '-' then -(DecimalValue(ds) as int) else DecimalValue(ds) as int)
      else None
    else if t != [] && AllDigits(t) then Some(DecimalValue(t))
    else None
  }

  /** `int(str(i)) == i`. */
  lemma {:induction false} ParseIntRoundTrip(i: int)
    ensures ParseInt(IntToString(i)) == Some(i)
  {
    var s := IntToString(i);
    assert IsDigit(s[|s| - 1]) && (IsDigit(s[0]) || s[0] == '-') by {
      DigitsEdges(i);
    }
    StripTrimmed(s);
    SignedRoundTrip(i);
  }

  /** `str(i)` opens with a digit or a minus sign and ends with a digit. */
  lemma {:induction false} DigitsEdges(i: int)
    ensures var s := IntToString(i); IsDigit(s[|s| - 1]) && (IsDigit(s[0]) || s[0] == '-')
  {
    var ds := NatToString(if i < 0 then -i else i);
    assert IsDigit(ds[0]) && IsDigit(ds[|ds| - 1]);
    if i < 0 {
      assert IntToString(i) == "-" + ds;
      assert ("-" + ds)[|ds|] == ds[|ds| - 1];
    }
  }

  /** Reading the sign and digits of `str(i)` back gives `i`. */
  lemma {:induction false} SignedRoundTrip(i: int)
    ensures ParseSigned(IntToString(i)) == Some(i)
  {
    if i < 0 {
      var ds := NatToString(-i);
      assert ("-" + ds)[1..] == ds;
      DecimalRoundTrip(-i);
    } else {
      assert IsDigit(NatToString(i)[0]);
      DecimalRoundTrip(i);
    }
  }

  /** Distinct integers print differently. */
  lemma {:induction false} IntToStringInjective(i: int, j: int)
    requires IntToString(i) == IntToString(j)
    ensures i == j
  {
    ParseIntRoundTrip(i);
    ParseIntRoundTrip(j);
  }
}
