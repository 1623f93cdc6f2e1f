/**
 * Python's ordering of `str` values and `sorted(...)` applied to a set of strings, as
 * `build_chunk` uses it for the `pages` and `sections` lists.
 */
module StrOrder {

  /** `a < b` on Python strings: code point by code point, a proper prefix first. */
  predicate Less(a: string, b: string)
    decreases |a|
  {
    |b| > 0 && (|a| == 0 || a[0] < b[0] || (a[0] == b[0] && Less(a[1..], b[1..])))
  }

  lemma {:induction false} LessIrreflexive(a: string)
    ensures !Less(a, a)
    decreases |a|
  {
    if |a| > 0 {
      LessIrreflexive(a[1..]);
    }
  }

  lemma {:induction false} LessTransitive(a: string, b: string, c: string)
    requires Less(a, b) && Less(b, c)
    ensures Less(a, c)
    decreases |a|
  {
    if |a| > 0 && a[0] == b[0] && b[0] == c[0] {
      LessTransitive(a[1..], b[1..], c[1..]);
    }
  }

  lemma {:induction false} LessTotal(a: string, b: string)
    ensures a == b || Less(a, b) || Less(b, a)
    decreases |a|
  {
    if |a| > 0 && |b| > 0 && a[0] == b[0] {
      LessTotal(a[1..], b[1..]);
      if a[1..] == b[1..] {
        assert a == [a[0]] + a[1..] && b == [b[0]] + b[1..];
      }
    }
  }

  /** Ascending without repetition. */
  predicate StrictlySorted(xs: seq<string>) {
    forall i, j :: 0 <= i < j < |xs| ==> Less(xs[i], xs[j])
  }

  /** Puts `x` in its place in a sorted list, unless it is already there. */
  function Insert(xs: seq<string>, x: string): (r: seq<string>)
    requires StrictlySorted(xs)
    ensures StrictlySorted(r)
    ensures forall s :: s in r <==> s in xs || s == x
  {
    if xs == [] then [x]
    else if x == xs[0] then xs
    else if Less(x, xs[0]) then
      assert forall j :: 0 < j < |xs| ==> Less(x, xs[j]) by {
        forall j | 0 < j < |xs| { LessTransitive(x, xs[0], xs[j]); }
      }
      [x] + xs
    else
      LessTotal(x, xs[0]);
      var rest := Insert(xs[1..], x);
      assert forall s :: s in rest ==> Less(xs[0], s);
      [xs[0]] + rest
  }

  /** `sorted(set(xs))`: the distinct strings of `xs` in ascending order. */
  function SortedSet(xs: seq<string>): (r: seq<string>)
    ensures StrictlySorted(r)
    ensures forall s :: s in r <==> s in xs
  {
    if xs == [] then [] else Insert(SortedSet(xs[..|xs| - 1]), xs[|xs| - 1])
  }

  lemma {:induction false} LessAsymmetric(a: string, b: string)
    ensures !(Less(a, b) && Less(b, a))
  {
    LessIrreflexive(a);
    if Less(a, b) && Less(b, a) {
      LessTransitive(a, b, a);
    }
  }

  /** The head of a sorted list is its least element. */
  lemma {:induction false} HeadIsLeast(xs: seq<string>)
    requires StrictlySorted(xs)
    ensures forall s :: s in xs ==> s == xs[0] || Less(xs[0], s)
  {
  }

  /** A set of strings has exactly one strictly ascending listing. */
  lemma {:induction false} SortedUnique(xs: seq<string>, ys: seq<string>)
    requires StrictlySorted(xs) && StrictlySorted(ys)
    requires forall s :: s in xs <==> s in ys
    ensures xs == ys
    decreases |xs|
  {
    assert xs != [] ==> xs[0] in ys;
    assert ys != [] ==> ys[0] in xs;
    if xs != [] && ys != [] {
      HeadIsLeast(xs);
      HeadIsLeast(ys);
      LessAsymmetric(xs[0], ys[0]);
      assert xs[0] == ys[0];
      LessIrreflexive(xs[0]);
      assert xs == [xs[0]] + xs[1..] && ys == [ys[0]] + ys[1..];
      forall s ensures s in xs[1..] <==> s in ys[1..] {
        if s in xs[1..] {
          var i :| 0 <= i < |xs[1..]| && xs[1..][i] == s;
          assert Less(xs[0], xs[i + 1]);
          assert s != ys[0] && s in ys;
        }
        if s in ys[1..] {
          var j :| 0 <= j < |ys[1..]| && ys[1..][j] == s;
          assert Less(ys[0], ys[j + 1]);
          assert s != xs[0] && s in xs;
        }
      }
      SortedUnique(xs[1..], ys[1..]);
    }
  }

  /** Page numbers are ordered as text: "10" sorts before "2". */
  lemma {:induction false} TextualOrder()
    ensures SortedSet(["2", "10", "2"]) == ["10", "2"]
  {
    assert Less("10", "2");
    SortedUnique(SortedSet(["2", "10", "2"]), ["10", "2"]);
  }
}
