/**
 * Sorting by a total order, standing in for Python's `sorted` and `list.sort`.
 * The result is specified as a sorted permutation of the input; when the order is
 * antisymmetric (as the tuple orders used by the solvers are) that result is
 * unique, so it is the list Python's sort produces whatever algorithm it uses.
 */
module Sorting {

  ghost predicate Total<T(!new)>(le: (T, T) -> bool)
  {
    forall a, b :: le(a, b) || le(b, a)
  }

  ghost predicate Transitive<T(!new)>(le: (T, T) -> bool)
  {
    forall a, b, c :: le(a, b) && le(b, c) ==> le(a, c)
  }

  ghost predicate Antisymmetric<T(!new)>(le: (T, T) -> bool)
  {
    forall a, b :: le(a, b) && le(b, a) ==> a == b
  }

  ghost predicate TotalOrder<T(!new)>(le: (T, T) -> bool)
  {
    Total(le) && Transitive(le) && Antisymmetric(le)
  }

  predicate SortedBy<T>(s: seq<T>, le: (T, T) -> bool)
  {
    forall i, j :: 0 <= i < j < |s| ==> le(s[i], s[j])
  }

  lemma SortedTail<T>(s: seq<T>, le: (T, T) -> bool)
    requires s != [] && SortedBy(s, le)
    ensures SortedBy(s[1..], le)
    ensures forall k :: 0 <= k < |s[1..]| ==> le(s[0], s[1..][k])
  {
  }

  /** A lower bound of `x` and of every element of `t` bounds every element of a permutation of `t + [x]`. */
  lemma BoundedPermutation<T>(y: T, x: T, t: seq<T>, r: seq<T>, le: (T, T) -> bool)
    requires multiset(r) == multiset(t) + multiset{x}
    requires le(y, x) && forall k :: 0 <= k < |t| ==> le(y, t[k])
    ensures forall k :: 0 <= k < |r| ==> le(y, r[k])
  {
    forall k | 0 <= k < |r| ensures le(y, r[k]) {
      assert r[k] in multiset(r);
      if r[k] != x {
        assert r[k] in multiset(t);
        var j :| 0 <= j < |t| && t[j] == r[k];
      }
    }
  }

  function Insert<T(!new)>(x: T, s: seq<T>, le: (T, T) -> bool): (r: seq<T>)
    requires Total(le) && Transitive(le) && SortedBy(s, le)
    ensures SortedBy(r, le)
    ensures multiset(r) == multiset(s) + multiset{x}
    ensures |r| == |s| + 1
  {
    if s == [] || le(x, s[0]) then
      [x] + s
    else
      SortedTail(s, le);
      var rest := Insert(x, s[1..], le);
      assert s == [s[0]] + s[1..];
      BoundedPermutation(s[0], x, s[1..], rest, le);
      [s[0]] + rest
  }

  /** Insertion sort: a sorted permutation of `s`. */
  function SortBy<T(!new)>(s: seq<T>, le: (T, T) -> bool): (r: seq<T>)
    requires Total(le) && Transitive(le)
    ensures SortedBy(r, le)
    ensures multiset(r) == multiset(s)
    ensures |r| == |s|
  {
    if s == [] then [] else
      assert s == s[..|s| - 1] + [s[|s| - 1]];
      Insert(s[|s| - 1], SortBy(s[..|s| - 1], le), le)
  }

  lemma SortedHeadLe<T(!new)>(a: seq<T>, le: (T, T) -> bool, x: T)
    requires Total(le) && SortedBy(a, le) && x in a
    ensures le(a[0], x)
  {
    var k :| 0 <= k < |a| && a[k] == x;
    if k == 0 {
      assert le(x, x) || le(x, x);
    }
  }

  /** Two sorted arrangements of one multiset start with the same element. */
  lemma SameHead<T(!new)>(a: seq<T>, b: seq<T>, le: (T, T) -> bool)
    requires TotalOrder(le)
    requires SortedBy(a, le) && SortedBy(b, le)
    requires multiset(a) == multiset(b) && a != [] && b != []
    ensures a[0] == b[0]
  {
    assert b[0] in multiset(a) && a[0] in multiset(b);
    SortedHeadLe(a, le, b[0]);
    SortedHeadLe(b, le, a[0]);
  }

  /** Dropping the same head from both sides keeps the multisets equal. */
  lemma SameTails<T>(a: seq<T>, b: seq<T>)
    requires multiset(a) == multiset(b) && a != [] && b != [] && a[0] == b[0]
    ensures multiset(a[1..]) == multiset(b[1..])
  {
    assert a == [a[0]] + a[1..] && b == [b[0]] + b[1..];
    assert multiset(a[1..]) == multiset(a) - multiset{a[0]};
    assert multiset(b[1..]) == multiset(b) - multiset{b[0]};
  }

  /** Under an antisymmetric total order there is only one sorted arrangement of a multiset. */
  lemma {:induction false} SortedUnique<T(!new)>(a: seq<T>, b: seq<T>, le: (T, T) -> bool)
    requires TotalOrder(le)
    requires SortedBy(a, le) && SortedBy(b, le)
    requires multiset(a) == multiset(b)
    ensures a == b
    decreases |a|
  {
    assert |a| == |multiset(a)| == |b|;
    if a != [] {
      SameHead(a, b, le);
      SameTails(a, b);
      SortedTail(a, le);
      SortedTail(b, le);
      SortedUnique(a[1..], b[1..], le);
      assert a == [a[0]] + a[1..] && b == [b[0]] + b[1..];
    }
  }
}
