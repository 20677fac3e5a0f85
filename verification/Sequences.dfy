/** Filtering a sequence. */
module Sequences {
  import opened Ordering

  function Filter<T>(s: seq<T>, p: T -> bool): seq<T> {
    if s == [] then []
    else Filter(s[..|s| - 1], p) + (if p(s[|s| - 1]) then [s[|s| - 1]] else [])
  }

  lemma FilterStep<T>(s: seq<T>, i: nat, p: T -> bool)
    requires i < |s|
    ensures Filter(s[..i + 1], p) == Filter(s[..i], p) + (if p(s[i]) then [s[i]] else [])
  {
    assert s[..i + 1][..i] == s[..i];
  }

  lemma {:induction false} FilterMembers<T>(s: seq<T>, p: T -> bool)
    ensures forall x :: x in Filter(s, p) <==> x in s && p(x)
  {
    if s != [] {
      var n := |s| - 1;
      FilterMembers(s[..n], p);
      assert s == s[..n] + [s[n]];
    }
  }

  lemma {:induction false} FilterAll<T>(s: seq<T>, p: T -> bool, q: T -> bool)
    requires forall i | 0 <= i < |s| :: q(s[i])
    ensures forall i | 0 <= i < |Filter(s, p)| :: q(Filter(s, p)[i])
  {
    if s != [] {
      FilterAll(s[..|s| - 1], p, q);
    }
  }

  lemma {:induction false} FilterSize<T>(s: seq<T>, p: T -> bool)
    ensures |Filter(s, p)| <= |s|
  {
    if s != [] {
      FilterSize(s[..|s| - 1], p);
    }
  }

  lemma {:induction false} FilterSorted<T>(s: seq<T>, p: T -> bool, rel: (T, T) -> bool)
    requires Sorted(s, rel)
    ensures Sorted(Filter(s, p), rel)
  {
    if s != [] {
      var n := |s| - 1;
      FilterSorted(s[..n], p, rel);
      FilterAll(s[..n], p, x => rel(x, s[n]));
    }
  }
}
