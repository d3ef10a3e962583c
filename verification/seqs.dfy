/**
 * The array operations the site uses on lists: `filter`, and the distinct
 * values of a list in first-occurrence order (`Array.from(new Set(xs))`).
 */
module Seqs {

  /** `a` is `b` with some elements deleted: an order-preserving sublist. */
  predicate IsSubsequence<T(==)>(a: seq<T>, b: seq<T>)
    decreases |b|
  {
    a == [] || (b != [] && ((a[0] == b[0] && IsSubsequence(a[1..], b[1..])) || IsSubsequence(a, b[1..])))
  }

  /** `xs.filter(keep)`: the elements that pass, in their original order. */
  function Filter<T(==,!new)>(xs: seq<T>, keep: T -> bool): (r: seq<T>)
    ensures forall i :: 0 <= i < |r| ==> r[i] in xs && keep(r[i])
    ensures forall i :: 0 <= i < |xs| && keep(xs[i]) ==> xs[i] in r
    ensures IsSubsequence(r, xs)
    ensures |r| <= |xs|
    ensures |r| == |xs| <==> forall i :: 0 <= i < |xs| ==> keep(xs[i])
    ensures |r| == |xs| ==> r == xs
    decreases |xs|
  {
    if xs == [] then []
    else
      var rest := Filter(xs[1..], keep);
      assert xs == [xs[0]] + xs[1..];
      if keep(xs[0]) then
        assert ([xs[0]] + rest)[1..] == rest;
        [xs[0]] + rest
      else
        rest
  }

  /** Filtering keeps each kept value exactly as often as it occurs, and drops every other value entirely. */
  lemma {:induction false} FilterMultiset<T(!new)>(xs: seq<T>, keep: T -> bool)
    ensures forall x :: multiset(Filter(xs, keep))[x] == if keep(x) then multiset(xs)[x] else 0
    decreases |xs|
  {
    if xs != [] {
      var rest := Filter(xs[1..], keep);
      FilterMultiset(xs[1..], keep);
      assert xs == [xs[0]] + xs[1..];
      assert multiset(xs) == multiset{xs[0]} + multiset(xs[1..]);
      if keep(xs[0]) {
        assert multiset([xs[0]] + rest) == multiset{xs[0]} + multiset(rest);
      }
    }
  }

  /** A stricter test keeps an order-preserving sublist of what a looser test keeps. */
  lemma {:induction false} FilterNarrows<T(!new)>(xs: seq<T>, strict: T -> bool, loose: T -> bool)
    requires forall x :: strict(x) ==> loose(x)
    ensures IsSubsequence(Filter(xs, strict), Filter(xs, loose))
    decreases |xs|
  {
    if xs != [] {
      FilterNarrows(xs[1..], strict, loose);
      var s, l := Filter(xs[1..], strict), Filter(xs[1..], loose);
      if strict(xs[0]) {
        assert ([xs[0]] + s)[1..] == s && ([xs[0]] + l)[1..] == l;
      } else if loose(xs[0]) {
        assert ([xs[0]] + l)[1..] == l;
      }
    }
  }

  /** No value occurs twice. */
  predicate NoDuplicates<T(==)>(xs: seq<T>) {
    forall i, j :: 0 <= i < j < |xs| ==> xs[i] != xs[j]
  }

  /**
   * The values of `xs` not in `seen`, each once, in the order in which they
   * first occur: what inserting `xs` into a JavaScript `Set` that already
   * holds `seen` adds, in the Set's iteration order.
   */
  function DistinctFrom<T(==)>(xs: seq<T>, seen: set<T>): (r: seq<T>)
    ensures forall i :: 0 <= i < |r| ==> r[i] in xs && r[i] !in seen
    ensures forall i :: 0 <= i < |xs| && xs[i] !in seen ==> xs[i] in r
    ensures NoDuplicates(r)
    ensures IsSubsequence(r, xs)
    decreases |xs|
  {
    if xs == [] then []
    else
      var x := xs[0];
      assert xs == [x] + xs[1..];
      if x in seen then DistinctFrom(xs[1..], seen)
      else
        var rest := DistinctFrom(xs[1..], seen + {x});
        assert ([x] + rest)[1..] == rest;
        [x] + rest
  }

  /** `Array.from(new Set(xs))`. */
  function Distinct<T(==)>(xs: seq<T>): (r: seq<T>)
    ensures NoDuplicates(r) && IsSubsequence(r, xs)
    ensures forall i :: 0 <= i < |xs| ==> xs[i] in r
    ensures forall i :: 0 <= i < |r| ==> r[i] in xs
  {
    DistinctFrom(xs, {})
  }

  /** Deduplicating a concatenation: the second part only adds what the first did not have. */
  lemma {:induction false} DistinctFromAppend<T>(a: seq<T>, b: seq<T>, seen: set<T>)
    ensures DistinctFrom(a + b, seen) == DistinctFrom(a, seen) + DistinctFrom(b, seen + set x | x in a)
    decreases |a|
  {
    if a == [] {
      assert a + b == b;
      assert (set x | x in a) == {};
      assert seen + {} == seen;
    } else {
      var x := a[0];
      assert (a + b)[0] == x && (a + b)[1..] == a[1..] + b;
      var s' := if x in seen then seen else seen + {x};
      DistinctFromAppend(a[1..], b, s');
      assert s' + (set y | y in a[1..]) == seen + (set y | y in a);
    }
  }

  /**
   * First-occurrence order: the distinct values of a prefix are a prefix of
   * the distinct values of the whole list, so later elements never reorder
   * the values already seen.
   */
  lemma DistinctPrefix<T>(xs: seq<T>, k: nat)
    requires k <= |xs|
    ensures Distinct(xs[..k]) <= Distinct(xs)
  {
    assert xs == xs[..k] + xs[k..];
    DistinctFromAppend(xs[..k], xs[k..], {});
  }
}
