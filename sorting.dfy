/**
 * The database's ORDER BY, as a function: a stable insertion sort by a total
 * "comes no later than" relation. Used for `Meta.ordering` of both models.
 */
module Sorting {

  ghost predicate Total<T(!new)>(le: (T, T) -> bool) {
    forall a, b :: le(a, b) || le(b, a)
  }

  /** Every element comes no later than its successor. */
  predicate Sorted<T>(s: seq<T>, le: (T, T) -> bool) {
    forall i :: 0 < i < |s| ==> le(s[i - 1], s[i])
  }

  function Insert<T(!new)>(x: T, s: seq<T>, le: (T, T) -> bool): (r: seq<T>)
    requires Total(le)
    ensures |r| == |s| + 1
    ensures multiset(r) == multiset(s) + multiset{x}
    ensures r[0] == x || (|s| > 0 && r[0] == s[0])
    ensures Sorted(s, le) ==> Sorted(r, le)
  {
    if |s| == 0 || le(x, s[0]) then [x] + s
    else
      assert s == [s[0]] + s[1..];
      [s[0]] + Insert(x, s[1..], le)
  }

  function SortBy<T(!new)>(s: seq<T>, le: (T, T) -> bool): (r: seq<T>)
    requires Total(le)
    ensures multiset(r) == multiset(s)
    ensures Sorted(r, le)
  {
    if |s| == 0 then []
    else
      assert s == [s[0]] + s[1..];
      Insert(s[0], SortBy(s[1..], le), le)
  }

  /**
   * An element that nothing else may precede is placed first.
   */
  lemma {:induction false} StrictlyFirst<T>(t: seq<T>, le: (T, T) -> bool, x: T)
    requires Sorted(t, le)
    requires x in t
    requires forall y :: y in t && y != x ==> !le(y, x)
    ensures t[0] == x
  {
    if t[0] != x {
      assert t == [t[0]] + t[1..];
      assert x in t[1..];
      StrictlyFirst(t[1..], le, x);
    }
  }
}
