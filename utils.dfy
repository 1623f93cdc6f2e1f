/**
 * utils.py: the running-mean centroid update, the batching loop of `embed_batch` (the
 * embedding service is a function parameter) and `safe_int`.
 */
module Utils {
  import opened Wrappers
  import opened Seqs
  import opened Text

  type Vector = seq<real>

  /**
   * `update_centroid(centroid, new_emb, n)`: component `i` becomes
   * `(centroid[i] * n + new_emb[i]) / (n + 1)`. Python raises on a shorter `new_emb`
   * (index error) and on `n == -1` (division by zero).
   */
  function UpdateCentroid(centroid: Vector, newEmb: Vector, n: int): (r: Vector)
    requires |newEmb| >= |centroid| && n != -1
    ensures |r| == |centroid|
  {
    seq(|centroid|, i requires 0 <= i < |centroid| => Blend(centroid[i], newEmb[i], n))
  }

  /** One component of `update_centroid`: `(c * n + e) / (n + 1)`. */
  function Blend(c: real, e: real, n: int): real
    requires n != -1
  {
    (c * n as real + e) / (n as real + 1.0)
  }

  predicate HasDim(vs: seq<Vector>, dim: nat) {
    forall k :: 0 <= k < |vs| ==> |vs[k]| == dim
  }

  /** Component `i` summed over `vs`. */
  function SumAt(vs: seq<Vector>, i: nat): real
    requires forall k :: 0 <= k < |vs| ==> i < |vs[k]|
  {
    if vs == [] then 0.0 else SumAt(vs[..|vs| - 1], i) + vs[|vs| - 1][i]
  }

  /** The componentwise mean of vectors of dimension `dim`. */
  function Mean(vs: seq<Vector>, dim: nat): (m: Vector)
    requires |vs| > 0 && HasDim(vs, dim)
    ensures |m| == dim
  {
    seq(dim, i requires 0 <= i < dim => SumAt(vs, i) / |vs| as real)
  }

  /** One update turns the mean of `n` vectors into the mean of `n + 1`. */
  lemma {:induction false} IncrementalMean(vs: seq<Vector>, e: Vector, dim: nat)
    requires |vs| > 0 && HasDim(vs, dim) && |e| == dim
    ensures HasDim(vs + [e], dim)
    ensures UpdateCentroid(Mean(vs, dim), e, |vs|) == Mean(vs + [e], dim)
  {
    var n := |vs| as real;
    var ws := vs + [e];
    assert ws[..|ws| - 1] == vs;
    forall i | 0 <= i < dim
      ensures UpdateCentroid(Mean(vs, dim), e, |vs|)[i] == Mean(ws, dim)[i]
    {
      var s := SumAt(vs, i);
      assert SumAt(ws, i) == s + e[i];
      assert (s / n) * n == s;
    }
  }

  /** The mean of one vector is that vector. */
  lemma {:induction false} MeanOfOne(e: Vector)
    ensures Mean([e], |e|) == e
  {
    forall i | 0 <= i < |e| ensures Mean([e], |e|)[i] == e[i] {
      assert [e][..0] == [];
      assert SumAt([e], i) == e[i];
    }
  }

  /** Adding the centroid itself leaves it where it is. */
  lemma {:induction false} CentroidFixpoint(c: Vector, n: int)
    requires n != -1
    ensures UpdateCentroid(c, c, n) == c
  {
    forall i | 0 <= i < |c| ensures UpdateCentroid(c, c, n)[i] == c[i] {
      BlendWithItself(c[i], n);
    }
  }

  lemma {:induction false} BlendWithItself(x: real, n: int)
    requires n != -1
    ensures Blend(x, x, n) == x
  {
    var d := n as real + 1.0;
    assert d != 0.0;
    assert x * n as real + x == x * d;
    var q := (x * d) / d;
    assert q * d == x * d;
  }

  /**
   * The centroid after starting from `vs[0]` and applying `update_centroid` with
   * `n = 1, 2, ...` to each further vector, as the semantic chunker does.
   */
  function RunningCentroid(vs: seq<Vector>): (c: Vector)
    requires |vs| > 0 && HasDim(vs, |vs[0]|)
    ensures |c| == |vs[0]|
  {
    if |vs| == 1 then vs[0]
    else UpdateCentroid(RunningCentroid(vs[..|vs| - 1]), vs[|vs| - 1], |vs| - 1)
  }

  /** The running centroid is the componentwise mean of everything added so far. */
  lemma {:induction false} RunningCentroidIsMean(vs: seq<Vector>)
    requires |vs| > 0 && HasDim(vs, |vs[0]|)
    ensures RunningCentroid(vs) == Mean(vs, |vs[0]|)
  {
    if |vs| == 1 {
      MeanOfOne(vs[0]);
      assert vs == [vs[0]];
    } else {
      var init := vs[..|vs| - 1];
      RunningCentroidIsMean(init);
      IncrementalMean(init, vs[|vs| - 1], |vs[0]|);
      assert init + [vs[|vs| - 1]] == vs;
    }
  }

  // ---------------------------------------------------------------- embed_batch

  /** One vector per text, computed text by text: an order-preserving embedding call. */
  function Pointwise(f: string -> Vector, texts: seq<string>): (r: seq<Vector>)
    ensures |r| == |texts| && forall k :: 0 <= k < |texts| ==> r[k] == f(texts[k])
  {
    seq(|texts|, k requires 0 <= k < |texts| => f(texts[k]))
  }

  /** The results of embedding each batch, in batch order. */
  function EmbedEach(batches: seq<seq<string>>, embed: seq<string> -> seq<Vector>): seq<Vector> {
    if batches == [] then [] else embed(batches[0]) + EmbedEach(batches[1..], embed)
  }

  /**
   * `embed_batch`: embeds `texts[i:i + batch_size]` for `i` in `range(0, len(texts),
   * batch_size)` and concatenates the results. `range` rejects a zero step; a negative
   * step gives an empty range.
   */
  method EmbedBatch(texts: seq<string>, batchSize: int, embed: seq<string> -> seq<Vector>)
    returns (allEmbeddings: seq<Vector>)
    requires batchSize != 0
    ensures batchSize < 0 ==> allEmbeddings == []
    ensures batchSize > 0 ==> allEmbeddings == EmbedEach(Batches(texts, batchSize), embed)
  {
    allEmbeddings := [];
    if batchSize < 0 {
      return;
    }
    var i := 0;
    ghost var spec := EmbedEach(Batches(texts, batchSize), embed);
    assert Drop(texts, 0) == texts;
    EmptyAppend(spec);
    while i < |texts|
      invariant 0 <= i
      invariant allEmbeddings + EmbedEach(Batches(Drop(texts, i), batchSize), embed) == spec
      decreases |texts| - i
    {
      var batch := texts[i..if i + batchSize < |texts| then i + batchSize else |texts|];
      EmbedStep(texts, batchSize, i, allEmbeddings, spec, embed);
      allEmbeddings := allEmbeddings + embed(batch);
      i := i + batchSize;
    }
    assert Drop(texts, i) == [];
    AppendEmpty(allEmbeddings);
  }

  /** Embedding the batch at `i` moves it from what is left to what is done. */
  lemma {:induction false} EmbedStep(texts: seq<string>, batchSize: nat, i: nat, done: seq<Vector>, spec: seq<Vector>,
                                     embed: seq<string> -> seq<Vector>)
    requires batchSize > 0 && i < |texts|
    requires done + EmbedEach(Batches(Drop(texts, i), batchSize), embed) == spec
    ensures var batch := texts[i..if i + batchSize < |texts| then i + batchSize else |texts|];
      (done + embed(batch)) + EmbedEach(Batches(Drop(texts, i + batchSize), batchSize), embed) == spec
  {
    var batch := texts[i..if i + batchSize < |texts| then i + batchSize else |texts|];
    var later := Batches(Drop(texts, i + batchSize), batchSize);
    BatchesStep(texts, batchSize, i);
    assert ([batch] + later)[0] == batch;
    assert ([batch] + later)[1..] == later;
    assert EmbedEach([batch] + later, embed) == embed(batch) + EmbedEach(later, embed);
    AppendAssoc(done, embed(batch), EmbedEach(later, embed));
  }

  /**
   * With an order-preserving, one-vector-per-text embedding, the batch size does not
   * matter: the result is one vector per text, in text order.
   */
  lemma {:induction false} BatchSizeInvisible(
    texts: seq<string>, batchSize: nat, embed: seq<string> -> seq<Vector>, f: string -> Vector)
    requires batchSize > 0
    requires forall ts :: embed(ts) == Pointwise(f, ts)
    ensures EmbedEach(Batches(texts, batchSize), embed) == Pointwise(f, texts)
    decreases |texts|
  {
    if texts == [] {
    } else if |texts| <= batchSize {
      assert EmbedEach([texts], embed) == embed(texts) + EmbedEach([], embed);
    } else {
      BatchSizeInvisible(texts[batchSize..], batchSize, embed, f);
      assert texts[..batchSize] + texts[batchSize..] == texts;
    }
  }

  // ---------------------------------------------------------------- safe_int

  /**
   * The Python values `safe_int` is applied to: an `int`, a `bool`, a finite `float`, `None`,
   * a `str`, or a value of any other type (a list, a dict, ...).
   */
  datatype Value = IntValue(i: int) | BoolValue(b: bool) | FloatValue(x: real) | NoneValue | StrValue(s: string) | OtherValue

  /** `int(x)` for a finite float: the integer part, truncating toward zero. */
  function Truncate(x: real): int {
    if x >= 0.0 then x.Floor else -((-x).Floor)
  }

  /**
   * `safe_int(value, default)`: `int(value)`, or `default` where `int` raises `TypeError`
   * (`None`, other types) or `ValueError` (a string that is not a decimal integer).
   */
  function SafeInt(value: Value, default: int := 0): (r: int)
    ensures value.FloatValue? && value.x >= 0.0 ==> r as real <= value.x < r as real + 1.0
    ensures value.FloatValue? && value.x < 0.0 ==> r as real - 1.0 < value.x <= r as real
    ensures value.BoolValue? ==> r == if value.b then 1 else 0
    ensures value.IntValue? ==> r == value.i
    ensures value.StrValue? && ParseInt(value.s).Some? ==> r == ParseInt(value.s).value
    ensures value.StrValue? && ParseInt(value.s).None? ==> r == default
    ensures (value.NoneValue? || value.OtherValue?) ==> r == default
  {
    match value
    case IntValue(i) => i
    case BoolValue(b) => if b then 1 else 0
    case FloatValue(x) => Truncate(x)
    case NoneValue => default
    case StrValue(s) => ParseInt(s).GetOr(default)
    case OtherValue => default
  }

  /** Integers pass through unchanged; `None` falls back to the default. */
  lemma {:induction false} SafeIntBasics(i: int, default: int)
    ensures SafeInt(IntValue(i), default) == i
    ensures SafeInt(NoneValue, default) == default
  {
  }

  /** Floats truncate toward zero and booleans count as 0 and 1: `safe_int(-3.9) == -3`. */
  lemma {:induction false} SafeIntOfFloatAndBool(default: int)
    ensures SafeInt(FloatValue(3.9), default) == 3 && SafeInt(FloatValue(-3.9), default) == -3
    ensures SafeInt(BoolValue(true), default) == 1 && SafeInt(BoolValue(false), default) == 0
  {
    assert (3.9).Floor == 3;
  }

  /** `int` accepts surrounding whitespace, a sign and leading zeros; a stray letter gives the default. */
  lemma {:induction false} SafeIntOfPaddedString(default: int)
    ensures SafeInt(StrValue(" +007 ")) == 7
    ensures SafeInt(StrValue("4x"), default) == default
  {
    PaddedSignedZeros();
    StrayLetter();
  }

  /** `" +007 "` strips to `"+007"`, which reads as 7. */
  lemma {:induction false} PaddedSignedZeros()
    ensures ParseInt(" +007 ") == Some(7)
  {
    PaddedSigned();
    SignedZeros();
  }

  lemma {:induction false} PaddedSigned()
    ensures Strip(" +007 ") == "+007"
  {
    var t := "+007";
    assert Trimmed(t) by {
      assert !IsSpace(t[0]) && !IsSpace(t[3]);
    }
    assert " +007 " == " " + t + " ";
    PaddedStrip(t);
  }

  lemma {:induction false} SignedZeros()
    ensures ParseSigned("+007") == Some(7)
  {
    LeadingZeros();
    assert "+007"[1..] == "007";
  }

  /** One space on either side of a stripped, non-empty string is stripped off again. */
  lemma {:induction false} PaddedStrip(t: string)
    requires t != [] && Trimmed(t)
    ensures Strip(" " + t + " ") == t
  {
    var s := " " + t + " ";
    assert s[1..] == t + " ";
    assert LStrip(s) == LStrip(t + " ");
    assert LStrip(t + " ") == t + " ";
    assert (t + " ")[..|t|] == t;
    assert RStrip(t + " ") == RStrip(t);
    assert RStrip(t) == t;
  }

  lemma {:induction false} LeadingZeros()
    ensures AllDigits("007") && DecimalValue("007") == 7
  {
    assert "007"[..2] == "00" && "00"[..1] == "0" && "0"[..0] == "";
  }

  /** `"4x"` is not an integer literal. */
  lemma {:induction false} StrayLetter()
    ensures ParseInt("4x") == None
  {
    StripTrimmed("4x");
    assert !IsDigit("4x"[1]);
  }

  /** A decimal string converts to its value, not to the default. */
  lemma {:induction false} SafeIntOfDecimal(i: int, default: int)
    ensures SafeInt(StrValue(IntToString(i)), default) == i
  {
    ParseIntRoundTrip(i);
  }
}
