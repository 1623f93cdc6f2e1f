/** Sequence helpers shared by the models: flattening, Python slicing and fixed-size batching. */
module Seqs {

  /** The concatenation of a sequence of sequences (`list.extend` in a loop). */
  function Flatten<T>(xss: seq<seq<T>>): seq<T> {
    if xss == [] then [] else Flatten(xss[..|xss| - 1]) + xss[|xss| - 1]
  }

  /** Concatenation is associative; stated once so that callers need no extensionality. */
  lemma {:induction false} AppendAssoc<T>(a: seq<T>, b: seq<T>, c: seq<T>)
    ensures a + (b + c) == (a + b) + c
  {
  }

  lemma {:induction false} EmptyAppend<T>(a: seq<T>)
    ensures [] + a == a
  {
  }

  lemma {:induction false} AppendEmpty<T>(a: seq<T>)
    ensures a + [] == a
  {
  }

  lemma {:induction false} ConsTail<T>(x: T, xs: seq<T>)
    ensures ([x] + xs)[0] == x && ([x] + xs)[1..] == xs
  {
  }

  lemma {:induction false} MulSucc(m: nat, step: nat)
    ensures 0 <= m * step && (m + 1) * step == m * step + step
  {
  }

  lemma {:induction false} TakeDrop<T>(xs: seq<T>, n: nat)
    requires n <= |xs|
    ensures xs[..n] + xs[n..] == xs
  {
  }

  lemma {:induction false} SuffixCons<T>(xs: seq<T>, i: nat)
    requires i < |xs|
    ensures xs[i..] == [xs[i]] + xs[i + 1..]
  {
  }

  /** What follows `a` in a sequence that starts with `a + b` is `b`. */
  lemma {:induction false} PrefixSlice<T>(a: seq<T>, b: seq<T>, c: seq<T>)
    requires a + b <= c
    ensures |a| + |b| <= |c| && c[|a|..|a| + |b|] == b
  {
    assert c[..|a| + |b|] == a + b;
  }

  lemma {:induction false} FlattenAppend<T>(xss: seq<seq<T>>, yss: seq<seq<T>>)
    ensures Flatten(xss + yss) == Flatten(xss) + Flatten(yss)
    decreases |yss|
  {
    if yss == [] {
      assert xss + yss == xss;
    } else {
      var init, last := yss[..|yss| - 1], yss[|yss| - 1];
      var all := xss + yss;
      assert all[..|all| - 1] == xss + init;
      assert all[|all| - 1] == last;
      assert Flatten(all) == Flatten(xss + init) + last;
      FlattenAppend(xss, init);
      AppendAssoc(Flatten(xss), Flatten(init), last);
    }
  }

  lemma {:induction false} FlattenCons<T>(xs: seq<T>, yss: seq<seq<T>>)
    ensures Flatten([xs] + yss) == xs + Flatten(yss)
  {
    FlattenAppend([xs], yss);
    assert Flatten([xs]) == Flatten([xs][..0]) + xs;
  }

  /** A Python slice bound: negative values count from the end, then clamp to `[0, n]`. */
  function SliceBound(i: int, n: nat): (r: nat)
    ensures r <= n
  {
    if i < 0 then (if n + i < 0 then 0 else n + i) else if i > n then n else i
  }

  /** Python's `xs[a:b]` for a step of one. */
  function PySlice<T>(xs: seq<T>, a: int, b: int): (r: seq<T>)
    ensures 0 <= a <= b ==> r == xs[SliceBound(a, |xs|)..SliceBound(b, |xs|)]
  {
    var lo, hi := SliceBound(a, |xs|), SliceBound(b, |xs|);
    if lo <= hi then xs[lo..hi] else []
  }

  /**
   * The slices `xs[i:i + size]` for `i` in `range(0, len(xs), size)`: the batches of a
   * batching loop, in order.
   */
  function Batches<T>(xs: seq<T>, size: nat): (r: seq<seq<T>>)
    requires size > 0
    ensures forall k :: 0 <= k < |r| ==> 0 < |r[k]| <= size
    ensures forall k :: 0 <= k < |r| - 1 ==> |r[k]| == size
    decreases |xs|
  {
    if xs == [] then []
    else if |xs| <= size then [xs]
    else [xs[..size]] + Batches(xs[size..], size)
  }

  /** Python's `xs[i:]` for `i >= 0`. */
  function Drop<T>(xs: seq<T>, i: nat): seq<T> {
    if i <= |xs| then xs[i..] else []
  }

  /** The batches from offset `i` on: the slice at `i`, then the batches from `i + size` on. */
  lemma {:induction false} BatchesStep<T>(xs: seq<T>, size: nat, i: nat)
    requires size > 0 && i < |xs|
    ensures Batches(Drop(xs, i), size)
      == [xs[i..if i + size < |xs| then i + size else |xs|]] + Batches(Drop(xs, i + size), size)
  {
    var rest := xs[i..];
    assert Drop(xs, i) == rest;
    if |rest| <= size {
      assert Drop(xs, i + size) == [];
      assert rest == xs[i..|xs|];
    } else {
      assert rest[..size] == xs[i..i + size];
      assert rest[size..] == xs[i + size..];
    }
  }

  /** Batching neither drops, repeats nor reorders anything. */
  lemma {:induction false} BatchesCover<T>(xs: seq<T>, size: nat)
    requires size > 0
    ensures Flatten(Batches(xs, size)) == xs
    decreases |xs|
  {
    if xs == [] {
    } else if |xs| <= size {
      assert Flatten([xs]) == Flatten([xs][..0]) + xs;
    } else {
      BatchesCover(xs[size..], size);
      FlattenCons(xs[..size], Batches(xs[size..], size));
      assert xs[..size] + xs[size..] == xs;
    }
  }

  /** Batch `k` is exactly the Python slice `xs[k*size:(k+1)*size]`. */
  lemma {:induction false} BatchAt<T>(xs: seq<T>, size: nat, k: nat)
    requires size > 0 && k < |Batches(xs, size)|
    ensures Batches(xs, size)[k] == PySlice(xs, k * size, (k + 1) * size)
    decreases |xs|
  {
    MulSucc(k, size);
    var lo: nat := k * size;
    BatchAtOffset(xs, size, k, lo);
  }

  /** `BatchAt` with the offset `lo == k * size` named, so the induction stays linear. */
  lemma {:induction false} BatchAtOffset<T>(xs: seq<T>, size: nat, k: nat, lo: nat)
    requires size > 0 && k < |Batches(xs, size)| && lo == k * size
    ensures Batches(xs, size)[k] == PySlice(xs, lo, lo + size)
    decreases |xs|
  {
    if |xs| <= size {
      LastBatch(xs, size);
      assert k == 0 && lo == 0;
    } else if k == 0 {
      FirstBatch(xs, size);
      assert lo == 0;
    } else {
      FirstBatch(xs, size);
      MulSucc(k - 1, size);
      BatchAtOffset(xs[size..], size, k - 1, lo - size);
      BatchAtLater(xs, size, k, lo);
    }
  }

  /** The step of `BatchAtOffset`: batch `k > 0` is batch `k - 1` of what follows the first. */
  lemma {:induction false} BatchAtLater<T>(xs: seq<T>, size: nat, k: nat, lo: nat)
    requires size > 0 && |xs| > size && 0 < k < |Batches(xs, size)| && size <= lo
    requires Batches(xs, size) == [xs[..size]] + Batches(xs[size..], size)
    requires Batches(xs[size..], size)[k - 1] == PySlice(xs[size..], lo - size, lo)
    ensures Batches(xs, size)[k] == PySlice(xs, lo, lo + size)
  {
    var rest := xs[size..];
    assert Batches(xs, size)[k] == Batches(rest, size)[k - 1];
    SliceShift(xs, size, lo - size, lo);
  }

  /** Up to `size` elements make one batch, the slice `xs[0:size]`. */
  lemma {:induction false} LastBatch<T>(xs: seq<T>, size: nat)
    requires size > 0 && 0 < |xs| <= size
    ensures Batches(xs, size) == [xs] && PySlice(xs, 0, size) == xs
  {
    assert xs[0..|xs|] == xs;
  }

  /** More than `size` elements: the first batch is `xs[0:size]`, then the rest is batched. */
  lemma {:induction false} FirstBatch<T>(xs: seq<T>, size: nat)
    requires size > 0 && |xs| > size
    ensures Batches(xs, size) == [xs[..size]] + Batches(xs[size..], size)
    ensures PySlice(xs, 0, size) == xs[..size]
  {
    assert xs[0..size] == xs[..size];
  }

  /** Slicing after dropping `d` elements is slicing `d` further along. */
  lemma {:induction false} SliceShift<T>(xs: seq<T>, d: nat, a: nat, b: nat)
    requires d <= |xs| && a <= b
    ensures PySlice(xs[d..], a, b) == PySlice(xs, a + d, b + d)
  {
    var n := |xs| - d;
    var p, q := SliceBound(a, n), SliceBound(b, n);
    assert SliceBound(a + d, |xs|) == p + d && SliceBound(b + d, |xs|) == q + d;
    assert xs[d..][p..q] == xs[p + d..q + d];
  }

  /**
   * The slices `xs[start:start + size]` for `start` in `range(from, len(xs), step)`: the
   * windows of a `while start < len(xs)` loop that advances `start` by `step`. With words
   * left and a step of zero or less that loop never ends; no window is listed then.
   */
  function WindowsFrom<T>(xs: seq<T>, from: nat, size: int, step: int): seq<seq<T>>
    decreases |xs| - from
  {
    if from >= |xs| || step <= 0 then [] else [PySlice(xs, from, from + size)] + WindowsFrom(xs, from + step, size, step)
  }

  /**
   * There is one window per start offset below `|xs|`: none when `from >= |xs|`, otherwise
   * the last one starts within `step` of the end.
   */
  lemma {:induction false} WindowsCount<T>(xs: seq<T>, from: nat, size: int, step: nat)
    requires step > 0
    ensures var n := |WindowsFrom(xs, from, size, step)|;
      && (n == 0 <==> from >= |xs|)
      && (n > 0 ==> from + (n - 1) * step < |xs| <= from + n * step)
    decreases |xs| - from
  {
    if from < |xs| {
      var m := |WindowsFrom(xs, from + step, size, step)|;
      WindowsCount(xs, from + step, size, step);
      assert |WindowsFrom(xs, from, size, step)| == m + 1;
      MulSucc(m, step);
    }
  }

  /** The start of window `k`: `from` advanced `k` times by `step`. */
  function StartOf(from: nat, step: nat, k: nat): nat
    decreases k
  {
    if k == 0 then from else StartOf(from + step, step, k - 1)
  }

  lemma {:induction false} StartOfIs(from: nat, step: nat, k: nat)
    ensures StartOf(from, step, k) == from + k * step
    decreases k
  {
    if k > 0 {
      StartOfIs(from + step, step, k - 1);
      MulSucc(k - 1, step);
    }
  }

  lemma {:induction false} StartOfSucc(from: nat, step: nat, k: nat)
    ensures StartOf(from, step, k + 1) == StartOf(from, step, k) + step
    decreases k
  {
    if k > 0 {
      StartOfSucc(from + step, step, k - 1);
    }
  }

  /** Past the last window, the next start is beyond the end of `xs`. */
  lemma {:induction false} WindowsEnd<T>(xs: seq<T>, from: nat, size: int, step: nat)
    requires step > 0
    ensures StartOf(from, step, |WindowsFrom(xs, from, size, step)|) >= |xs|
  {
    WindowsCount(xs, from, size, step);
    StartOfIs(from, step, |WindowsFrom(xs, from, size, step)|);
  }

  lemma {:induction false} WindowAtStart<T>(xs: seq<T>, from: nat, size: int, step: nat, k: nat)
    requires step > 0 && k < |WindowsFrom(xs, from, size, step)|
    ensures StartOf(from, step, k) < |xs|
    ensures WindowsFrom(xs, from, size, step)[k] == PySlice(xs, StartOf(from, step, k), StartOf(from, step, k) + size)
    decreases k
  {
    assert from < |xs|;
    var ws := WindowsFrom(xs, from, size, step);
    var rest := WindowsFrom(xs, from + step, size, step);
    assert ws == [PySlice(xs, from, from + size)] + rest;
    if k == 0 {
      assert StartOf(from, step, 0) == from;
      assert ws[0] == PySlice(xs, from, from + size);
    } else {
      assert k - 1 < |rest|;
      assert ws[k] == rest[k - 1];
      WindowAtStart(xs, from + step, size, step, k - 1);
      assert StartOf(from, step, k) == StartOf(from + step, step, k - 1);
    }
  }

  /**
   * The `i`-th start of a loop that advances by `step` from 0 is inside `xs` exactly when
   * there is an `i`-th window, and that window is the slice from there.
   */
  lemma {:induction false} WindowIndex<T>(xs: seq<T>, size: int, step: nat, i: nat)
    requires step > 0 && i <= |WindowsFrom(xs, 0, size, step)|
    ensures var ws, start := WindowsFrom(xs, 0, size, step), StartOf(0, step, i);
      && (i < |ws| <==> start < |xs|)
      && (i < |ws| ==> ws[i] == PySlice(xs, start, start + size))
  {
    if i < |WindowsFrom(xs, 0, size, step)| {
      WindowAtStart(xs, 0, size, step, i);
    } else {
      WindowsEnd(xs, 0, size, step);
    }
  }

  /** Window `k` is the slice `xs[from + k*step : from + k*step + size]`, which starts inside `xs`. */
  lemma {:induction false} WindowAt<T>(xs: seq<T>, from: nat, size: int, step: nat, k: nat)
    requires step > 0 && k < |WindowsFrom(xs, from, size, step)|
    ensures 0 <= k * step && from + k * step < |xs|
    ensures WindowsFrom(xs, from, size, step)[k] == PySlice(xs, from + k * step, from + k * step + size)
  {
    WindowAtStart(xs, from, size, step, k);
    StartOfIs(from, step, k);
  }
}
