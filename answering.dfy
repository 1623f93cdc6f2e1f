/**
 * answering.py: `format_citations`, which renders the sources of an answer as
 * `"<section> (page <page>)"` strings, one per distinct `(section, page)` pair, in the order
 * the pairs first occur.
 */
module Answering {
  import opened Text
  import opened Records
  import opened Seqs

  /** The deduplication key `(meta["section"], meta["page"])`. */
  datatype Key = Key(section: string, page: int)

  function KeyOf(m: StoredMetadata): Key {
    Key(m.fields.section, m.fields.page)
  }

  /** `f"{meta['section']} (page {meta['page']})"`. */
  function Render(m: StoredMetadata): string {
    m.fields.section + " (page " + IntToString(m.fields.page) + ")"
  }

  /** The keys occurring in `ms`: the `seen` set after `ms`. */
  function KeySet(ms: seq<StoredMetadata>): set<Key> {
    if ms == [] then {} else KeySet(ms[..|ms| - 1]) + {KeyOf(ms[|ms| - 1])}
  }

  /** A key is in `KeySet(ms)` exactly when some entry of `ms` has it. */
  lemma {:induction false} KeySetMembers(ms: seq<StoredMetadata>, k: Key)
    ensures k in KeySet(ms) <==> exists i :: 0 <= i < |ms| && KeyOf(ms[i]) == k
  {
    if ms != [] {
      var init := ms[..|ms| - 1];
      KeySetMembers(init, k);
      if k in KeySet(init) {
        var i :| 0 <= i < |init| && KeyOf(init[i]) == k;
        assert ms[i] == init[i];
      }
      if exists i :: 0 <= i < |ms| && KeyOf(ms[i]) == k {
        var i :| 0 <= i < |ms| && KeyOf(ms[i]) == k;
        if i < |init| {
          assert init[i] == ms[i];
        }
      }
    }
  }

  /** The metadata entries that introduce a key not seen earlier, in input order. */
  function FirstOfEachKey(ms: seq<StoredMetadata>): seq<StoredMetadata> {
    if ms == [] then []
    else
      var init, m := ms[..|ms| - 1], ms[|ms| - 1];
      FirstOfEachKey(init) + (if KeyOf(m) in KeySet(init) then [] else [m])
  }

  /** What `format_citations` returns: each first occurrence rendered. */
  function Citations(ms: seq<StoredMetadata>): (r: seq<string>)
    ensures |r| == |FirstOfEachKey(ms)|
    ensures forall i :: 0 <= i < |r| ==> r[i] == Render(FirstOfEachKey(ms)[i])
  {
    var firsts := FirstOfEachKey(ms);
    seq(|firsts|, i requires 0 <= i < |firsts| => Render(firsts[i]))
  }

  /** `format_citations`. */
  method FormatCitations(sources: seq<StoredMetadata>) returns (citations: seq<string>)
    ensures citations == Citations(sources)
  {
    var seen: set<Key> := {};
    citations := [];
    for i := 0 to |sources|
      invariant seen == KeySet(sources[..i])
      invariant citations == Citations(sources[..i])
    {
      var meta := sources[i];
      var key := KeyOf(meta);
      CitationsSnoc(sources, i);
      if key !in seen {
        seen := seen + {key};
        citations := citations + [Render(meta)];
      } else {
        AppendEmpty(citations);
      }
    }
    assert sources[..|sources|] == sources;
  }

  /** One more source adds its key, and its citation when the key is new. */
  lemma {:induction false} CitationsSnoc(ms: seq<StoredMetadata>, i: nat)
    requires i < |ms|
    ensures KeySet(ms[..i + 1]) == KeySet(ms[..i]) + {KeyOf(ms[i])}
    ensures Citations(ms[..i + 1])
      == Citations(ms[..i]) + (if KeyOf(ms[i]) in KeySet(ms[..i]) then [] else [Render(ms[i])])
  {
    assert ms[..i + 1][..i] == ms[..i];
    var before, after := Citations(ms[..i]), Citations(ms[..i + 1]);
    var added: seq<string> := if KeyOf(ms[i]) in KeySet(ms[..i]) then [] else [Render(ms[i])];
    assert |after| == |before| + |added|;
    forall k | 0 <= k < |after|
      ensures after[k] == (before + added)[k]
    {
      if k < |before| {
        assert FirstOfEachKey(ms[..i + 1])[k] == FirstOfEachKey(ms[..i])[k];
      }
    }
  }

  lemma {:induction false} KeySetSnoc(ms: seq<StoredMetadata>, m: StoredMetadata)
    ensures KeySet(ms + [m]) == KeySet(ms) + {KeyOf(m)}
  {
    assert (ms + [m])[..|ms|] == ms;
  }

  /** Entry `p` of `ms` is the first with its key. */
  predicate FirstAt(ms: seq<StoredMetadata>, p: int) {
    0 <= p < |ms| && KeyOf(ms[p]) !in KeySet(ms[..p])
  }

  /** Each kept entry is an input entry whose key does not occur before it. */
  lemma {:induction false} FirstsAreFirst(ms: seq<StoredMetadata>)
    ensures forall x :: x in FirstOfEachKey(ms) ==> exists p :: FirstAt(ms, p) && ms[p] == x
  {
    if ms != [] {
      var init, m := ms[..|ms| - 1], ms[|ms| - 1];
      FirstsAreFirst(init);
      forall x | x in FirstOfEachKey(ms)
        ensures exists p :: FirstAt(ms, p) && ms[p] == x
      {
        if x in FirstOfEachKey(init) {
          var p :| FirstAt(init, p) && init[p] == x;
          assert ms[p] == init[p] && ms[..p] == init[..p];
          assert FirstAt(ms, p);
        } else {
          assert x == m && KeyOf(m) !in KeySet(init);
          assert ms[..|ms| - 1] == init;
          assert FirstAt(ms, |ms| - 1);
        }
      }
    }
  }

  /** No two kept entries share a key. */
  lemma {:induction false} FirstsDistinct(ms: seq<StoredMetadata>)
    ensures forall i, j :: 0 <= i < j < |FirstOfEachKey(ms)| ==> KeyOf(FirstOfEachKey(ms)[i]) != KeyOf(FirstOfEachKey(ms)[j])
  {
    if ms != [] {
      var init, m := ms[..|ms| - 1], ms[|ms| - 1];
      FirstsDistinct(init);
      FirstsKeySet(init);
      var prev := FirstOfEachKey(init);
      if KeyOf(m) !in KeySet(init) {
        var fs := prev + [m];
        assert FirstOfEachKey(ms) == fs;
        forall i | 0 <= i < |prev|
          ensures KeyOf(prev[i]) != KeyOf(m)
        {
          KeySetMembers(prev, KeyOf(prev[i]));
        }
        forall i, j | 0 <= i < j < |fs|
          ensures KeyOf(fs[i]) != KeyOf(fs[j])
        {
          assert fs[i] == prev[i];
          if j < |prev| {
            assert fs[j] == prev[j];
          } else {
            assert fs[j] == m;
          }
        }
      } else {
        assert FirstOfEachKey(ms) == prev;
      }
    }
  }

  /**
   * The kept entries carry exactly the input's keys, one entry per distinct key, so there
   * are never more of them than input entries.
   */
  lemma {:induction false} FirstsKeySet(ms: seq<StoredMetadata>)
    ensures KeySet(FirstOfEachKey(ms)) == KeySet(ms)
    ensures |FirstOfEachKey(ms)| == |KeySet(ms)| <= |ms|
  {
    if ms != [] {
      var init, m := ms[..|ms| - 1], ms[|ms| - 1];
      FirstsKeySet(init);
      var prev := FirstOfEachKey(init);
      if KeyOf(m) in KeySet(init) {
        assert FirstOfEachKey(ms) == prev;
        assert KeySet(ms) == KeySet(init);
      } else {
        assert FirstOfEachKey(ms) == prev + [m];
        KeySetSnoc(prev, m);
        assert KeySet(ms) == KeySet(init) + {KeyOf(m)};
        assert |KeySet(ms)| == |KeySet(init)| + 1;
      }
    }
  }

  /** The kept entries of a prefix are a prefix of the kept entries. */
  lemma {:induction false} FirstsPrefix(ms: seq<StoredMetadata>, more: seq<StoredMetadata>)
    ensures FirstOfEachKey(ms) <= FirstOfEachKey(ms + more)
    decreases |more|
  {
    if more == [] {
      assert ms + more == ms;
    } else {
      var init := more[..|more| - 1];
      assert (ms + more)[..|ms + more| - 1] == ms + init;
      FirstsPrefix(ms, init);
    }
  }

  /** Citations already produced never change or move when more sources follow. */
  lemma {:induction false} CitationsPrefix(ms: seq<StoredMetadata>, more: seq<StoredMetadata>)
    ensures Citations(ms) <= Citations(ms + more)
  {
    FirstsPrefix(ms, more);
    var a, b := Citations(ms), Citations(ms + more);
    assert forall i :: 0 <= i < |a| ==> a[i] == b[i];
  }

  /** Every citation renders the section and page of some source. */
  lemma {:induction false} CitationsFromSources(ms: seq<StoredMetadata>)
    ensures forall c :: c in Citations(ms) ==>
      exists p :: 0 <= p < |ms| && c == ms[p].fields.section + " (page " + IntToString(ms[p].fields.page) + ")"
  {
    FirstsAreFirst(ms);
    var fs := FirstOfEachKey(ms);
    forall c | c in Citations(ms)
      ensures exists p :: 0 <= p < |ms| && c == ms[p].fields.section + " (page " + IntToString(ms[p].fields.page) + ")"
    {
      var i :| 0 <= i < |Citations(ms)| && Citations(ms)[i] == c;
      assert fs[i] in fs;
      var p :| FirstAt(ms, p) && ms[p] == fs[i];
      assert c == Render(ms[p]);
    }
  }

  /** Distinct keys render to distinct strings, so no citation is listed twice. */
  lemma {:induction false} CitationsDistinct(ms: seq<StoredMetadata>)
    ensures var cs := Citations(ms); forall i, j :: 0 <= i < j < |cs| ==> cs[i] != cs[j]
  {
    FirstsDistinct(ms);
    var fs := FirstOfEachKey(ms);
    forall i, j | 0 <= i < j < |fs|
      ensures Render(fs[i]) != Render(fs[j])
    {
      if Render(fs[i]) == Render(fs[j]) {
        RenderInjective(fs[i], fs[j]);
      }
    }
  }

  predicate IsNumberChar(c: char) {
    IsDigit(c) || c == '-'
  }

  /** `str(page)` uses only digits and the minus sign. */
  predicate NumberChars(s: string) {
    forall k :: 0 <= k < |s| ==> IsNumberChar(s[k])
  }

  lemma {:induction false} IntToStringChars(i: int)
    ensures NumberChars(IntToString(i))
  {
    if i < 0 {
      var d := NatToString(-i);
      assert forall k :: 1 <= k < |"-" + d| ==> ("-" + d)[k] == d[k - 1];
    }
  }

  /** The length of the run of digits and minus signs that ends `t`. */
  function TrailingNumberRun(t: string): (n: nat)
    ensures n <= |t|
  {
    if t != [] && IsNumberChar(t[|t| - 1]) then 1 + TrailingNumberRun(t[..|t| - 1]) else 0
  }

  lemma {:induction false} TrailingNumberRunOf(p: string, d: string)
    requires p != [] && !IsNumberChar(p[|p| - 1]) && NumberChars(d)
    ensures TrailingNumberRun(p + d) == |d|
    decreases |d|
  {
    if d == [] {
      assert p + d == p;
    } else {
      assert (p + d)[..|p + d| - 1] == p + d[..|d| - 1];
      TrailingNumberRunOf(p, d[..|d| - 1]);
    }
  }

  /**
   * A citation determines its key: the page is the run of digits and minus signs before the
   * closing parenthesis, which the blank ending " (page " delimits.
   */
  lemma {:induction false} RenderInjective(a: StoredMetadata, b: StoredMetadata)
    requires Render(a) == Render(b)
    ensures KeyOf(a) == KeyOf(b)
  {
    var da, db := IntToString(a.fields.page), IntToString(b.fields.page);
    IntToStringChars(a.fields.page);
    IntToStringChars(b.fields.page);
    var pa, pb := a.fields.section + " (page ", b.fields.section + " (page ";
    var r := Render(a);
    assert r == pa + da + ")" && r == pb + db + ")";
    assert r[..|r| - 1] == pa + da == pb + db;
    TrailingNumberRunOf(pa, da);
    TrailingNumberRunOf(pb, db);
    assert da == (pa + da)[|pa|..] == (pb + db)[|pb|..] == db;
    IntToStringInjective(a.fields.page, b.fields.page);
    assert pa == (pa + da)[..|pa|] == (pb + db)[..|pb|] == pb;
    assert a.fields.section == pa[..|pa| - 7] == pb[..|pb| - 7] == b.fields.section;
  }

  /** The empty list of sources has no citations. */
  lemma {:induction false} CitationsEmpty()
    ensures Citations([]) == []
  {
  }

  /** A repeated key is dropped and a new one kept: `[a, a, b]` keeps `[a, b]`. */
  lemma {:induction false} FirstsOfRepeat(a: StoredMetadata, b: StoredMetadata)
    requires KeyOf(a) != KeyOf(b)
    ensures FirstOfEachKey([a, a, b]) == [a, b]
  {
    assert [a][..0] == [];
    assert KeySet([a]) == {KeyOf(a)};
    assert FirstOfEachKey([a]) == [a];
    assert [a, a][..1] == [a];
    assert KeySet([a, a]) == {KeyOf(a)};
    assert FirstOfEachKey([a, a]) == [a];
    assert [a, a, b][..2] == [a, a];
  }

  lemma {:induction false} RenderExample(m: StoredMetadata, section: string, page: nat)
    requires m.fields.section == section && m.fields.page == page && page < 10
    ensures Render(m) == section + " (page " + [DigitChar(page)] + ")"
  {
  }

  /**
   * Sources (Intro, 1), (Intro, 1), (Methods, 2) give "Intro (page 1)" and
   * "Methods (page 2)", in that order.
   */
  lemma {:induction false} CitationsExample(a: StoredMetadata, b: StoredMetadata)
    requires a.fields.section == "Intro" && a.fields.page == 1
    requires b.fields.section == "Methods" && b.fields.page == 2
    ensures Citations([a, a, b]) == ["Intro (page 1)", "Methods (page 2)"]
  {
    FirstsOfRepeat(a, b);
    RenderExample(a, "Intro", 1);
    RenderExample(b, "Methods", 2);
    assert DigitChar(1) == '1' && DigitChar(2) == '2';
    var cs := Citations([a, a, b]);
    assert |cs| == 2 && cs[0] == Render(a) && cs[1] == Render(b);
    assert "Intro" + " (page " + "1" + ")" == "Intro (page 1)";
    assert "Methods" + " (page " + "2" + ")" == "Methods (page 2)";
    assert cs == [cs[0], cs[1]];
  }
}
