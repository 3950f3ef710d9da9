/** Sequence helpers shared by the three firework variants: the list
    comprehension `[p for p in ps if keep(p)]` as a function on values, and
    the order-preserving subsequence relation it establishes. */
module Seqs {

  /** Pairwise distinct elements (a list of distinct objects). */
  ghost predicate Distinct<T>(s: seq<T>)
  {
    forall i, j :: 0 <= i < j < |s| ==> s[i] != s[j]
  }

  /** The elements of `s` that satisfy `keep`, in their original order.
      Defined from the back so that appending one element unfolds once. */
  function Filter<T>(s: seq<T>, keep: T -> bool): (r: seq<T>)
    ensures |r| <= |s|
    ensures forall k :: 0 <= k < |r| ==> keep(r[k]) && r[k] in s
    decreases |s|
  {
    if s == [] then []
    else
      var init := Filter(s[..|s| - 1], keep);
      if keep(s[|s| - 1]) then init + [s[|s| - 1]] else init
  }

  /** `a` is obtained from `b` by deleting elements, keeping the order. */
  ghost predicate SubsequenceOf<T>(a: seq<T>, b: seq<T>)
    decreases |b|
  {
    if a == [] then true
    else if b == [] then false
    else (a[|a| - 1] == b[|b| - 1] && SubsequenceOf(a[..|a| - 1], b[..|b| - 1]))
         || SubsequenceOf(a, b[..|b| - 1])
  }

  /** Filtering `s + [x]` filters `s` and then considers `x`. */
  lemma FilterSnoc<T>(s: seq<T>, x: T, keep: T -> bool)
    ensures Filter(s + [x], keep) == Filter(s, keep) + (if keep(x) then [x] else [])
  {
    assert (s + [x])[..|s|] == s;
  }

  /** An element survives the filter iff it was there and satisfies `keep`. */
  lemma {:induction false} FilterMembership<T>(s: seq<T>, keep: T -> bool, x: T)
    ensures x in Filter(s, keep) <==> x in s && keep(x)
    decreases |s|
  {
    if s != [] {
      var init := s[..|s| - 1];
      FilterMembership(init, keep, x);
      assert s == init + [s[|s| - 1]];
    }
  }

  /** Nothing survives the filter iff no element satisfies `keep`. */
  lemma {:induction false} FilterEmpty<T>(s: seq<T>, keep: T -> bool)
    ensures Filter(s, keep) == [] <==> forall k :: 0 <= k < |s| ==> !keep(s[k])
    decreases |s|
  {
    if s != [] {
      var init := s[..|s| - 1];
      FilterEmpty(init, keep);
      assert forall k :: 0 <= k < |init| ==> init[k] == s[k];
    }
  }

  /** A filter keeps the order: its result is a subsequence of its input. */
  lemma {:induction false} FilterIsSubsequence<T>(s: seq<T>, keep: T -> bool)
    ensures SubsequenceOf(Filter(s, keep), s)
    decreases |s|
  {
    if s != [] {
      var init := s[..|s| - 1];
      var f := Filter(init, keep);
      FilterIsSubsequence(init, keep);
      if keep(s[|s| - 1]) {
        assert (f + [s[|s| - 1]])[..|f|] == f;
      } else if f != [] {
        assert SubsequenceOf(f, s[..|s| - 1]);
      }
    }
  }

  /** The empty sequence is a subsequence of anything. */
  lemma EmptySubsequence<T>(b: seq<T>)
    ensures SubsequenceOf([], b)
  {
  }

  /** Appending the same element to both sides keeps the relation. */
  lemma SubsequenceSnocBoth<T>(a: seq<T>, b: seq<T>, x: T)
    requires SubsequenceOf(a, b)
    ensures SubsequenceOf(a + [x], b + [x])
  {
    assert (a + [x])[..|a|] == a;
    assert (b + [x])[..|b|] == b;
  }

  /** Appending an element to the larger side keeps the relation. */
  lemma SubsequenceSnocRight<T>(a: seq<T>, b: seq<T>, x: T)
    requires SubsequenceOf(a, b)
    ensures SubsequenceOf(a, b + [x])
  {
    assert (b + [x])[..|b|] == b;
  }

  /** Everything in a subsequence is in the larger sequence. */
  lemma {:induction false} SubsequenceMembers<T>(a: seq<T>, b: seq<T>, x: T)
    requires SubsequenceOf(a, b)
    requires x in a
    ensures x in b
    decreases |b|
  {
    var b' := b[..|b| - 1];
    assert b == b' + [b[|b| - 1]];
    if a[|a| - 1] == b[|b| - 1] && SubsequenceOf(a[..|a| - 1], b') {
      var a' := a[..|a| - 1];
      assert a == a' + [a[|a| - 1]];
      if x != a[|a| - 1] {
        SubsequenceMembers(a', b', x);
      }
    } else {
      SubsequenceMembers(a, b', x);
    }
  }

  /** A subsequence of a list of distinct elements has distinct elements. */
  lemma {:induction false} SubsequenceDistinct<T>(a: seq<T>, b: seq<T>)
    requires SubsequenceOf(a, b)
    requires Distinct(b)
    ensures Distinct(a)
    decreases |b|
  {
    if a != [] {
      var b' := b[..|b| - 1];
      assert Distinct(b');
      if a[|a| - 1] == b[|b| - 1] && SubsequenceOf(a[..|a| - 1], b') {
        var a' := a[..|a| - 1];
        SubsequenceDistinct(a', b');
        if a[|a| - 1] in a' {
          SubsequenceMembers(a', b', a[|a| - 1]);
        }
        assert a == a' + [a[|a| - 1]];
      } else {
        SubsequenceDistinct(a, b');
      }
    }
  }

  /** Two lists of distinct elements with no element in common concatenate
      to a list of distinct elements. */
  lemma DistinctAppend<T>(a: seq<T>, b: seq<T>)
    requires Distinct(a) && Distinct(b)
    requires forall i, j :: 0 <= i < |a| && 0 <= j < |b| ==> a[i] != b[j]
    ensures Distinct(a + b)
  {
  }
}
