/** Sequence helpers: `Array.prototype.filter` / Java `stream().filter` as
    `Filter`, the subsequence order they preserve, and counting. */
module Seqs {

  /** Elements of `s` that satisfy `p`, in their original order. */
  function Filter<T>(s: seq<T>, p: T -> bool): (r: seq<T>)
    ensures |r| <= |s|
    ensures forall x :: x in r ==> x in s && p(x)
    decreases |s|
  {
    if s == [] then []
    else
      var init := Filter(s[..|s| - 1], p);
      if p(s[|s| - 1]) then init + [s[|s| - 1]] else init
  }

  /** `a` can be obtained from `b` by deleting elements, keeping the order. */
  predicate Subsequence<T(==)>(a: seq<T>, b: seq<T>)
    decreases |b|
  {
    if a == [] then true
    else if b == [] then false
    else if a[|a| - 1] == b[|b| - 1] then Subsequence(a[..|a| - 1], b[..|b| - 1])
    else Subsequence(a, b[..|b| - 1])
  }

  /** A subsequence of `b` stays one when `b` grows at the end. */
  lemma {:induction false} SubsequenceOfExtension<T>(a: seq<T>, b: seq<T>, x: T)
    requires Subsequence(a, b)
    ensures Subsequence(a, b + [x])
    decreases |b|, 1
  {
    assert (b + [x])[..|b|] == b;
    if a != [] && a[|a| - 1] == x {
      SubsequencePrefix(a, b);
    }
  }

  /** Dropping the last element of `a` keeps it a subsequence. */
  lemma {:induction false} SubsequencePrefix<T>(a: seq<T>, b: seq<T>)
    requires a != []
    requires Subsequence(a, b)
    ensures Subsequence(a[..|a| - 1], b)
    decreases |b|, 0
  {
    var a', b', last := a[..|a| - 1], b[..|b| - 1], b[|b| - 1];
    assert b' + [last] == b;
    if a[|a| - 1] != last {
      SubsequencePrefix(a, b');
    }
    SubsequenceOfExtension(a', b', last);
  }

  /** A filter result is a subsequence of its input. */
  lemma {:induction false} FilterSubsequence<T>(s: seq<T>, p: T -> bool)
    ensures Subsequence(Filter(s, p), s)
    decreases |s|
  {
    if s != [] {
      var init, last := s[..|s| - 1], s[|s| - 1];
      FilterSubsequence(init, p);
      assert init + [last] == s;
      if p(last) {
        assert Filter(s, p) == Filter(init, p) + [last];
        assert (Filter(init, p) + [last])[..|Filter(init, p)|] == Filter(init, p);
      } else {
        SubsequenceOfExtension(Filter(init, p), init, last);
      }
    }
  }

  /** Each element occurs in the filter result as often as in the input when it
      satisfies `p`, and not at all otherwise. */
  lemma {:induction false} FilterMultiset<T>(s: seq<T>, p: T -> bool)
    ensures forall x :: multiset(Filter(s, p))[x] == if p(x) then multiset(s)[x] else 0
    decreases |s|
  {
    if s != [] {
      var init, last := s[..|s| - 1], s[|s| - 1];
      FilterMultiset(init, p);
      assert init + [last] == s;
      assert multiset(s) == multiset(init) + multiset{last};
    }
  }

  /** Two predicates that agree on every element give the same filter. */
  lemma {:induction false} FilterExtensional<T>(s: seq<T>, p: T -> bool, q: T -> bool)
    requires forall x :: x in s ==> p(x) == q(x)
    ensures Filter(s, p) == Filter(s, q)
    decreases |s|
  {
    if s != [] {
      FilterExtensional(s[..|s| - 1], p, q);
    }
  }

  /** Nothing passes a predicate that no element satisfies. */
  lemma {:induction false} FilterNone<T>(s: seq<T>, p: T -> bool)
    requires forall x :: x in s ==> !p(x)
    ensures Filter(s, p) == []
    decreases |s|
  {
    if s != [] {
      FilterNone(s[..|s| - 1], p);
    }
  }

  /** Everything passes a predicate that every element satisfies. */
  lemma {:induction false} FilterAll<T>(s: seq<T>, p: T -> bool)
    requires forall x :: x in s ==> p(x)
    ensures Filter(s, p) == s
    decreases |s|
  {
    if s != [] {
      FilterAll(s[..|s| - 1], p);
    }
  }

  /** Filtering two equally long sequences whose elements pass alike, position
      by position, keeps the positions paired: the results are equally long
      and every pair of survivors is still related. */
  lemma {:induction false} FilterCorresponding<T, U>(s: seq<T>, t: seq<U>, p: T -> bool, q: U -> bool, rel: (T, U) -> bool)
    requires |s| == |t|
    requires forall i :: 0 <= i < |s| ==> p(s[i]) == q(t[i])
    requires forall i :: 0 <= i < |s| && p(s[i]) ==> rel(s[i], t[i])
    ensures |Filter(s, p)| == |Filter(t, q)|
    ensures forall i :: 0 <= i < |Filter(s, p)| ==> rel(Filter(s, p)[i], Filter(t, q)[i])
    decreases |s|
  {
    if s != [] {
      FilterCorresponding(s[..|s| - 1], t[..|t| - 1], p, q, rel);
    }
  }
}
