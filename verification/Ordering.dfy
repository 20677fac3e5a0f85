/** Lexicographic order on strings, and sorting by a total order. */
module Ordering {

  /** Strict lexicographic order, as Go compares strings. */
  predicate Below(a: string, b: string) {
    if b == [] then false
    else if a == [] then true
    else a[0] < b[0] || (a[0] == b[0] && Below(a[1..], b[1..]))
  }

  predicate AtMost(a: string, b: string) {
    a == b || Below(a, b)
  }

  lemma {:induction false} Trichotomy(a: string, b: string)
    ensures Below(a, b) || a == b || Below(b, a)
    ensures !(Below(a, b) && Below(b, a)) && !Below(a, a)
  {
    if a != [] && b != [] {
      Trichotomy(a[1..], b[1..]);
      assert a == [a[0]] + a[1..] && b == [b[0]] + b[1..];
    }
    if a != [] {
      Trichotomy(a[1..], a[1..]);
    }
  }

  lemma {:induction false} Transitive(a: string, b: string, c: string)
    requires Below(a, b) && Below(b, c)
    ensures Below(a, c)
  {
    if a != [] && a[0] == b[0] == c[0] {
      Transitive(a[1..], b[1..], c[1..]);
    }
  }

  lemma AtMostTransitive(a: string, b: string, c: string)
    requires AtMost(a, b) && AtMost(b, c)
    ensures AtMost(a, c)
  {
    if a != b && b != c {
      Transitive(a, b, c);
    }
  }

  predicate Comparable<T>(le: (T, T) -> bool, x: T, y: T) {
    le(x, y) || le(y, x)
  }

  predicate Chains<T>(le: (T, T) -> bool, x: T, y: T, z: T) {
    le(x, y) && le(y, z) ==> le(x, z)
  }

  ghost predicate TotalOrder<T(!new)>(le: (T, T) -> bool) {
    && (forall x, y :: Comparable(le, x, y))
    && (forall x, y, z :: Chains(le, x, y, z))
  }

  ghost predicate Sorted<T>(s: seq<T>, le: (T, T) -> bool) {
    forall i, j | 0 <= i < j < |s| :: le(s[i], s[j])
  }

  function Insert<T>(s: seq<T>, x: T, le: (T, T) -> bool): seq<T> {
    if s == [] then [x]
    else if le(s[|s| - 1], x) then s + [x]
    else Insert(s[..|s| - 1], x, le) + [s[|s| - 1]]
  }

  function SortBy<T>(s: seq<T>, le: (T, T) -> bool): seq<T> {
    if s == [] then [] else Insert(SortBy(s[..|s| - 1], le), s[|s| - 1], le)
  }

  lemma MultisetSnoc<T>(init: seq<T>, last: T)
    ensures multiset(init + [last]) == multiset(init) + multiset{last}
  {
  }

  lemma {:induction false} InsertPermutes<T>(s: seq<T>, x: T, le: (T, T) -> bool)
    ensures multiset(Insert(s, x, le)) == multiset(s) + multiset{x}
  {
    if s != [] {
      var init, last := s[..|s| - 1], s[|s| - 1];
      assert s == init + [last];
      if le(last, x) {
        MultisetSnoc(s, x);
      } else {
        InsertPermutes(init, x, le);
        MultisetSnoc(Insert(init, x, le), last);
        MultisetSnoc(init, last);
      }
    }
  }

  /** Sorting only permutes. */
  lemma {:induction false} SortByPermutes<T>(s: seq<T>, le: (T, T) -> bool)
    ensures multiset(SortBy(s, le)) == multiset(s)
  {
    if s != [] {
      var init, last := s[..|s| - 1], s[|s| - 1];
      SortByPermutes(init, le);
      calc {
        multiset(SortBy(s, le));
        { InsertPermutes(SortBy(init, le), last, le); }
        multiset(init) + multiset{last};
        { MultisetSnoc(init, last); }
        multiset(init + [last]);
        { assert init + [last] == s; }
        multiset(s);
      }
    }
  }

  lemma {:induction false} InsertSorted<T(!new)>(s: seq<T>, x: T, le: (T, T) -> bool)
    requires TotalOrder(le) && Sorted(s, le)
    ensures Sorted(Insert(s, x, le), le)
  {
    if s != [] {
      var n := |s| - 1;
      var last := s[n];
      if le(last, x) {
        forall i | 0 <= i < n
          ensures le(s[i], x)
        {
          assert Chains(le, s[i], last, x);
        }
      } else {
        assert Comparable(le, last, x);
        InsertSorted(s[..n], x, le);
        InsertPermutes(s[..n], x, le);
        var t := Insert(s[..n], x, le);
        forall i | 0 <= i < |t|
          ensures le(t[i], last)
        {
          assert t[i] in multiset(t);
        }
      }
    }
  }

  /** Sorting by a total order yields a sorted sequence. */
  lemma {:induction false} SortBySorts<T(!new)>(s: seq<T>, le: (T, T) -> bool)
    requires TotalOrder(le)
    ensures Sorted(SortBy(s, le), le)
  {
    if s != [] {
      var n := |s| - 1;
      SortBySorts(s[..n], le);
      InsertSorted(SortBy(s[..n], le), s[n], le);
    }
  }

  ghost predicate NoTies<T>(s: seq<T>, le: (T, T) -> bool) {
    forall x, y | x in s && y in s :: le(x, y) && le(y, x) ==> x == y
  }

  lemma SameLast<T>(a: seq<T>, b: seq<T>, le: (T, T) -> bool)
    requires Sorted(a, le) && Sorted(b, le) && multiset(a) == multiset(b) && NoTies(a, le)
    requires |a| == |b| > 0
    ensures a[|a| - 1] == b[|b| - 1]
  {
    var x, y := a[|a| - 1], b[|b| - 1];
    assert x in multiset(b) && y in multiset(a);
    var i :| 0 <= i < |b| && b[i] == x;
    var j :| 0 <= j < |a| && a[j] == y;
  }

  /** With no ties between different elements there is only one sorted permutation, so
      it does not matter which sorting routine produced it. */
  lemma {:induction false} SortedUnique<T>(a: seq<T>, b: seq<T>, le: (T, T) -> bool)
    requires Sorted(a, le) && Sorted(b, le) && multiset(a) == multiset(b) && NoTies(a, le)
    ensures a == b
  {
    assert |a| == |multiset(a)| == |multiset(b)| == |b|;
    if a != [] {
      SameLast(a, b, le);
      var last := a[|a| - 1];
      var a', b' := a[..|a| - 1], b[..|b| - 1];
      assert a == a' + [last] && b == b' + [last];
      SameInit(a', b', last);
      InitKeeps(a', last, le);
      InitKeeps(b', last, le);
      SortedUnique(a', b', le);
    }
  }

  lemma SameInit<T>(a: seq<T>, b: seq<T>, last: T)
    requires multiset(a + [last]) == multiset(b + [last])
    ensures multiset(a) == multiset(b)
  {
    MultisetSnoc(a, last);
    MultisetSnoc(b, last);
    assert multiset(a) == multiset(a) + multiset{last} - multiset{last};
    assert multiset(b) == multiset(b) + multiset{last} - multiset{last};
  }

  lemma InitKeeps<T>(s: seq<T>, last: T, le: (T, T) -> bool)
    requires Sorted(s + [last], le)
    ensures Sorted(s, le)
    ensures NoTies(s + [last], le) ==> NoTies(s, le)
  {
    var t := s + [last];
    assert forall i | 0 <= i < |s| :: t[i] == s[i];
    assert forall x | x in s :: x in t;
  }

  ghost predicate Distinct<T>(s: seq<T>) {
    forall i, j | 0 <= i < j < |s| :: s[i] != s[j]
  }

  /** A sequence without repetitions is a set in some order. */
  lemma {:induction false} DistinctBag<T>(s: seq<T>)
    requires Distinct(s)
    ensures multiset(s) == multiset(set x | x in s)
  {
    if s != [] {
      var init, last := s[..|s| - 1], s[|s| - 1];
      assert s == init + [last];
      DistinctBag(init);
      MultisetSnoc(init, last);
      assert last !in init;
      assert (set x | x in s) == (set x | x in init) + {last};
    }
  }

  /** One way a map's keys may be iterated. */
  ghost predicate IsOrder<T(!new)>(order: seq<T>, keys: set<T>) {
    Distinct(order) && forall k :: k in order <==> k in keys
  }

  lemma NothingToOrder<T(!new)>(order: seq<T>, keys: set<T>)
    requires IsOrder(order, keys)
    ensures order == [] <==> keys == {}
  {
    if order != [] {
      assert order[0] in order;
    } else {
      assert keys == {};
    }
  }

  /** An order may begin or end with any one key. */
  lemma OrderExtends<T(!new)>(order: seq<T>, keys: set<T>, k: T)
    requires IsOrder(order, keys) && k !in keys
    ensures IsOrder(order + [k], keys + {k}) && IsOrder([k] + order, keys + {k})
  {
  }

  lemma {:induction false} SomeOrder<T(!new)>(keys: set<T>) returns (order: seq<T>)
    ensures IsOrder(order, keys)
    decreases keys
  {
    order := [];
    if keys != {} {
      var k :| k in keys;
      order := SomeOrder(keys - {k});
      OrderExtends(order, keys - {k}, k);
      assert keys - {k} + {k} == keys;
      order := order + [k];
    }
  }

  /** Two orders of the same keys, one beginning and one ending with `k`. */
  lemma OrdersAround<T(!new)>(keys: set<T>, k: T) returns (first: seq<T>, last: seq<T>)
    requires k in keys
    ensures IsOrder(first, keys) && first != [] && first[0] == k
    ensures IsOrder(last, keys) && last != [] && last[|last| - 1] == k
  {
    var rest := SomeOrder(keys - {k});
    OrderExtends(rest, keys - {k}, k);
    assert keys - {k} + {k} == keys;
    first, last := [k] + rest, rest + [k];
  }
}
