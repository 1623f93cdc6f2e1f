/**
 * retrieval.py: `assemble_chunks`, which turns ranked search hits into one context string
 * and the list of their sources, and `needs_global_context`, a keyword test on the query.
 */
module Retrieval {
  import opened Text

  /** One search hit `(score, text, metadata)`; hits arrive sorted by descending score. */
  datatype Hit<M> = Hit(score: real, text: string, meta: M)

  /** The number of leading hits scoring at least `threshold`: the index of the first one below. */
  function LeadingAbove<M>(hits: seq<Hit<M>>, threshold: real): (n: nat)
    ensures n <= |hits|
    ensures forall i :: 0 <= i < n ==> hits[i].score >= threshold
    ensures n < |hits| ==> hits[n].score < threshold
  {
    if hits == [] || hits[0].score < threshold then 0
    else 1 + LeadingAbove(hits[1..], threshold)
  }

  /** The most hits the loop keeps: one for a narrow query, else `max(1, max_chunks)`. */
  function Cap(allowMultiSection: bool, maxChunks: int): (c: int)
    ensures c >= 1
    ensures !allowMultiSection ==> c == 1
    ensures allowMultiSection ==> c == if maxChunks < 1 then 1 else maxChunks
  {
    if !allowMultiSection || maxChunks < 1 then 1 else maxChunks
  }

  /**
   * How many hits `assemble_chunks` keeps: the leading hits within `min_score_ratio` of the
   * top score, at most `Cap` of them.
   */
  function Kept<M>(hits: seq<Hit<M>>, allowMultiSection: bool, maxChunks: int, minScoreRatio: real): (n: nat)
    ensures n <= |hits|
  {
    if hits == [] then 0
    else
      var above := LeadingAbove(hits, hits[0].score * minScoreRatio);
      if above <= Cap(allowMultiSection, maxChunks) then above else Cap(allowMultiSection, maxChunks)
  }

  /** Each hit's text stripped and followed by a newline, concatenated. */
  function ContextOf<M>(hits: seq<Hit<M>>): string {
    if hits == [] then "" else ContextOf(hits[..|hits| - 1]) + Strip(hits[|hits| - 1].text) + "\n"
  }

  function Metas<M>(hits: seq<Hit<M>>): (r: seq<M>)
    ensures |r| == |hits| && forall i :: 0 <= i < |r| ==> r[i] == hits[i].meta
  {
    if hits == [] then [] else Metas(hits[..|hits| - 1]) + [hits[|hits| - 1].meta]
  }

  /** The sources `assemble_chunks` returns: the metadata of the kept hits, in order. */
  function AssembledSources<M>(hits: seq<Hit<M>>, allowMultiSection: bool, maxChunks: int, minScoreRatio: real)
    : seq<M>
  {
    Metas(hits[..Kept(hits, allowMultiSection, maxChunks, minScoreRatio)])
  }

  /** The context `assemble_chunks` returns: the kept hits' context, stripped. */
  function AssembledText<M>(hits: seq<Hit<M>>, allowMultiSection: bool, maxChunks: int, minScoreRatio: real)
    : string
  {
    Strip(ContextOf(hits[..Kept(hits, allowMultiSection, maxChunks, minScoreRatio)]))
  }

  /** `Kept` is the smaller of the two bounds it takes. */
  lemma {:induction false} KeptIs<M>(hits: seq<Hit<M>>, allowMultiSection: bool, maxChunks: int, minScoreRatio: real, n: nat)
    requires hits != []
    requires var above := LeadingAbove(hits, hits[0].score * minScoreRatio);
      var cap := Cap(allowMultiSection, maxChunks);
      n <= above && n <= cap && (n == above || n == cap)
    ensures Kept(hits, allowMultiSection, maxChunks, minScoreRatio) == n
  {
  }

  /** Keeping hit `i` extends the context and the sources by that hit. */
  lemma {:induction false} KeepOneMore<M>(hits: seq<Hit<M>>, i: nat)
    requires i < |hits|
    ensures ContextOf(hits[..i + 1]) == ContextOf(hits[..i]) + Strip(hits[i].text) + "\n"
    ensures Metas(hits[..i + 1]) == Metas(hits[..i]) + [hits[i].meta]
  {
    assert hits[..i + 1][..i] == hits[..i];
  }

  /** `assemble_chunks`. */
  method AssembleChunks<M>(results: seq<Hit<M>>, allowMultiSection: bool := false, maxChunks: int := 4,
                           minScoreRatio: real := 0.6)
    returns (text: string, sources: seq<M>)
    ensures text == AssembledText(results, allowMultiSection, maxChunks, minScoreRatio)
    ensures sources == AssembledSources(results, allowMultiSection, maxChunks, minScoreRatio)
  {
    if results == [] {
      StripEmpty();
      assert results[..0] == [];
      return "", [];
    }
    var assembledText := "";
    sources := [];
    var threshold := results[0].score * minScoreRatio;
    ghost var cap := Cap(allowMultiSection, maxChunks);
    var i := 0;
    while i < |results|
      invariant i <= LeadingAbove(results, threshold) && i < cap
      invariant assembledText == ContextOf(results[..i]) && sources == Metas(results[..i])
      decreases |results| - i
    {
      var hit := results[i];
      if hit.score < threshold {
        assert LeadingAbove(results, threshold) == i;
        KeptIs(results, allowMultiSection, maxChunks, minScoreRatio, i);
        break;
      }
      assembledText, sources := assembledText + Strip(hit.text) + "\n", sources + [hit.meta];
      KeepOneMore(results, i);
      assert i < LeadingAbove(results, threshold);
      i := i + 1;
      if !allowMultiSection {
        KeptIs(results, allowMultiSection, maxChunks, minScoreRatio, i);
        break;
      }
      if |sources| >= maxChunks {
        KeptIs(results, allowMultiSection, maxChunks, minScoreRatio, i);
        break;
      }
    }
    KeptIs(results, allowMultiSection, maxChunks, minScoreRatio, i);
    text := Strip(assembledText);
  }

  /**
   * What `assemble_chunks` returns: nothing for no hits; otherwise a prefix of the hits'
   * sources in order, with the text built from the same prefix. The score cutoff is a stop:
   * no hit at or after the first one below `top * min_score_ratio` is kept. A narrow query
   * keeps at most one hit, a broad one at most `max(1, max_chunks)`.
   */
  lemma {:induction false} AssembledShape<M>(hits: seq<Hit<M>>, allowMultiSection: bool, maxChunks: int, minScoreRatio: real)
    ensures var sources := AssembledSources(hits, allowMultiSection, maxChunks, minScoreRatio);
      && (hits == [] ==> sources == [] && AssembledText(hits, allowMultiSection, maxChunks, minScoreRatio) == "")
      && |sources| <= |hits| && sources == Metas(hits)[..|sources|]
      && AssembledText(hits, allowMultiSection, maxChunks, minScoreRatio) == Strip(ContextOf(hits[..|sources|]))
      && (hits != [] ==> forall j :: 0 <= j < |hits| && hits[j].score < hits[0].score * minScoreRatio ==> |sources| <= j)
      && (!allowMultiSection ==> |sources| <= 1)
      && (allowMultiSection ==> |sources| <= (if maxChunks < 1 then 1 else maxChunks))
  {
    var n := Kept(hits, allowMultiSection, maxChunks, minScoreRatio);
    assert Metas(hits)[..n] == Metas(hits[..n]);
    if hits == [] {
      assert hits[..0] == [];
      StripEmpty();
    }
  }

  lemma {:induction false} StripEmpty()
    ensures Strip("") == ""
  {
  }

  /**
   * With a non-negative top score and a ratio of at most one, the top hit always passes the
   * cutoff, so hits give at least one source.
   */
  lemma {:induction false} TopHitKept<M>(hits: seq<Hit<M>>, allowMultiSection: bool, maxChunks: int, minScoreRatio: real)
    requires hits != [] && hits[0].score >= 0.0 && minScoreRatio <= 1.0
    ensures |AssembledSources(hits, allowMultiSection, maxChunks, minScoreRatio)| >= 1
  {
    var top := hits[0].score;
    assert top * (1.0 - minScoreRatio) >= 0.0;
    assert LeadingAbove(hits, top * minScoreRatio) >= 1;
  }

  /** A negative top score fails its own cutoff when the ratio is below one: nothing is kept. */
  lemma {:induction false} NegativeTopDropped<M>(hits: seq<Hit<M>>, allowMultiSection: bool, maxChunks: int, minScoreRatio: real)
    requires hits != [] && hits[0].score < 0.0 && minScoreRatio < 1.0
    ensures AssembledSources(hits, allowMultiSection, maxChunks, minScoreRatio) == []
    ensures AssembledText(hits, allowMultiSection, maxChunks, minScoreRatio) == ""
  {
    var top := hits[0].score;
    assert top < top * minScoreRatio;
    assert Kept(hits, allowMultiSection, maxChunks, minScoreRatio) == 0;
    assert hits[..0] == [];
    StripEmpty();
  }

  /** Scores 0.9, 0.5, 0.3 with ratio 0.6 and several sections allowed: only the first is kept. */
  lemma {:induction false} CutoffStops<M>(a: Hit<M>, b: Hit<M>, c: Hit<M>)
    requires a.score == 0.9 && b.score == 0.5 && c.score == 0.3
    ensures AssembledSources([a, b, c], true, 4, 0.6) == [a.meta]
  {
    var hits := [a, b, c];
    assert LeadingAbove(hits, 0.9 * 0.6) == 1 by {
      assert hits[1..][0] == b;
    }
    assert Kept(hits, true, 4, 0.6) == 1;
    assert hits[..1] == [a];
  }

  // ---------------------------------------------------------------- needs_global_context

  /** The terms whose presence signals a question that needs several sections. */
  const GlobalTerms: seq<string> := [
    "limitations", "challenges", "stages", "roles", "implications", "advantages",
    "disadvantages", "why", "how does", "overall", "across", "compared to", "difference between"]

  /** `any(term in q for term in terms)`. */
  function AnyTermIn(q: string, terms: seq<string>): (r: bool)
    ensures r <==> exists k :: 0 <= k < |terms| && Contains(q, terms[k])
  {
    if terms == [] then false
    else Contains(q, terms[0]) || AnyTermIn(q, terms[1..])
  }

  /** `needs_global_context`: the lowercased query contains one of the global terms. */
  function NeedsGlobalContext(query: string): (r: bool)
    ensures r <==> exists k :: 0 <= k < |GlobalTerms| && Contains(Lower(query), GlobalTerms[k])
  {
    AnyTermIn(Lower(query), GlobalTerms)
  }

  lemma {:induction false} LowerIdempotent(s: string)
    ensures Lower(Lower(s)) == Lower(s)
  {
    assert forall i :: 0 <= i < |s| ==> LowerChar(LowerChar(s[i])) == LowerChar(s[i]);
  }

  /** The test ignores case. */
  lemma {:induction false} NeedsGlobalContextIgnoresCase(query: string)
    ensures NeedsGlobalContext(Lower(query)) == NeedsGlobalContext(query)
  {
    LowerIdempotent(query);
  }

  /** A query containing "Why" in any case needs global context; the empty query does not. */
  lemma {:induction false} NeedsGlobalContextExamples(before: string, after: string)
    ensures NeedsGlobalContext(before + "Why" + after)
    ensures !NeedsGlobalContext("")
  {
    var q := Lower(before + "Why" + after);
    assert q[|before|..|before| + 3] == "why";
    assert OccursAt(q, GlobalTerms[7], |before|);
    forall k | 0 <= k < |GlobalTerms|
      ensures !Contains("", GlobalTerms[k])
    {
      assert |GlobalTerms[k]| > 0;
    }
  }
}
