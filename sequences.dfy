/** Generic facts about sequences used by the row filter and the rankings:
    order-preserving subsequences, filtering by a row predicate, and
    removing one element. */
module Sequences {

  /** `xs` is obtained from `ys` by deleting elements, keeping the order of
      the rest. */
  predicate IsSubsequence<T(==)>(xs: seq<T>, ys: seq<T>)
    decreases |ys|
  {
    || xs == []
    || (&& ys != []
        && (|| (xs[|xs| - 1] == ys[|ys| - 1] && IsSubsequence(xs[..|xs| - 1], ys[..|ys| - 1]))
            || IsSubsequence(xs, ys[..|ys| - 1])))
  }

  /** A subsequence is never longer than the sequence it is taken from. */
  lemma {:induction false} SubsequenceLength<T>(xs: seq<T>, ys: seq<T>)
    requires IsSubsequence(xs, ys)
    ensures |xs| <= |ys|
    decreases |ys|
  {
    if xs != [] {
      if xs[|xs| - 1] == ys[|ys| - 1] && IsSubsequence(xs[..|xs| - 1], ys[..|ys| - 1]) {
        SubsequenceLength(xs[..|xs| - 1], ys[..|ys| - 1]);
      } else {
        SubsequenceLength(xs, ys[..|ys| - 1]);
      }
    }
  }

  /** A boolean mask applied to a sequence (`df[mask]`): the elements for
      which `keep` holds, in their original order, each as often as it
      occurs. */
  function Where<T(==,!new)>(xs: seq<T>, keep: T -> bool): (r: seq<T>)
    ensures IsSubsequence(r, xs)
    ensures forall x :: multiset(r)[x] == if keep(x) then multiset(xs)[x] else 0
    ensures forall x :: x in r <==> x in xs && keep(x)
  {
    if xs == [] then []
    else
      var init, last := xs[..|xs| - 1], xs[|xs| - 1];
      assert xs == init + [last];
      if keep(last) then Where(init, keep) + [last] else Where(init, keep)
  }

  /** A mask that every element passes changes nothing. */
  lemma {:induction false} WhereAll<T(!new)>(xs: seq<T>, keep: T -> bool)
    requires forall i :: 0 <= i < |xs| ==> keep(xs[i])
    ensures Where(xs, keep) == xs
  {
    if xs != [] {
      var init := xs[..|xs| - 1];
      assert keep(xs[|xs| - 1]);
      assert xs == init + [xs[|xs| - 1]];
      assert Where(xs, keep) == Where(init, keep) + [xs[|xs| - 1]];
      WhereAll(init, keep);
      assert Where(xs, keep) == init + [xs[|xs| - 1]];
      assert Where(xs, keep) == xs;
    }
  }

  /** Applying one mask after another is the same as applying, once, a
      mask that is their conjunction. */
  lemma {:induction false} WhereWhere<T(!new)>(xs: seq<T>, p: T -> bool, q: T -> bool, both: T -> bool)
    requires forall x :: both(x) == (p(x) && q(x))
    ensures Where(Where(xs, p), q) == Where(xs, both)
  {
    if xs != [] {
      var init, last := xs[..|xs| - 1], xs[|xs| - 1];
      WhereWhere(init, p, q, both);
      var w := Where(init, p);
      if p(last) {
        assert Where(xs, p) == w + [last];
        assert (w + [last])[..|w|] == w;
      }
    }
  }

  /** Masks that agree on every element give the same result. */
  lemma {:induction false} WhereCongruent<T(!new)>(xs: seq<T>, p: T -> bool, q: T -> bool)
    requires forall x :: p(x) == q(x)
    ensures Where(xs, p) == Where(xs, q)
  {
    if xs != [] {
      WhereCongruent(xs[..|xs| - 1], p, q);
    }
  }

  /** A sequence whose elements are all excluded is empty. */
  lemma EmptyWhenNoMember<T>(xs: seq<T>)
    requires forall x :: x !in xs
    ensures xs == []
  {
    forall y ensures multiset(xs)[y] == 0 {
      assert y !in xs;
    }
    assert multiset(xs) == multiset{};
  }

  /** Two sequences with the same elements still have the same elements once
      an occurrence of the last element of the first has been removed from
      each. */
  lemma MultisetRemove<T>(a: seq<T>, b: seq<T>, i: nat)
    requires multiset(a) == multiset(b) && a != []
    requires i < |b| && b[i] == a[|a| - 1]
    ensures multiset(a[..|a| - 1]) == multiset(b[..i] + b[i + 1..])
  {
    var x := b[i];
    assert a == a[..|a| - 1] + [x];
    assert b == b[..i] + [x] + b[i + 1..];
    var m, n := multiset(a[..|a| - 1]), multiset(b[..i] + b[i + 1..]);
    assert m + multiset{x} == n + multiset{x};
    forall y ensures m[y] == n[y] {
      assert (m + multiset{x})[y] == (n + multiset{x})[y];
    }
  }
}
