/** A stable sort by a comparison, as `sort_by` and `sort_by_key` compute it. */
module Sorting {

  /** A comparison that can compare any two elements and chains. */
  ghost predicate TotalPreorder<T(!new)>(leq: (T, T) -> bool) {
    && (forall a, b :: leq(a, b) || leq(b, a))
    && (forall a, b, c :: leq(a, b) && leq(b, c) ==> leq(a, c))
  }

  predicate Sorted<T>(s: seq<T>, leq: (T, T) -> bool) {
    forall i, j :: 0 <= i < j < |s| ==> leq(s[i], s[j])
  }

  predicate Unique<T(==)>(s: seq<T>) {
    forall i, j :: 0 <= i < j < |s| ==> s[i] != s[j]
  }

  /** `x` put after every element that may come before it. */
  function Insert<T>(s: seq<T>, x: T, leq: (T, T) -> bool): seq<T> {
    if s == [] || leq(s[|s| - 1], x) then s + [x]
    else Insert(s[..|s| - 1], x, leq) + [s[|s| - 1]]
  }

  function Sort<T>(s: seq<T>, leq: (T, T) -> bool): seq<T> {
    if s == [] then [] else Insert(Sort(s[..|s| - 1], leq), s[|s| - 1], leq)
  }

  lemma {:induction false} InsertAdds<T>(s: seq<T>, x: T, leq: (T, T) -> bool)
    ensures multiset(Insert(s, x, leq)) == multiset(s) + multiset{x}
    ensures |Insert(s, x, leq)| == |s| + 1
    ensures forall y :: y in Insert(s, x, leq) <==> y in s || y == x
  {
    if s != [] && !leq(s[|s| - 1], x) {
      InsertAdds(s[..|s| - 1], x, leq);
      assert s == s[..|s| - 1] + [s[|s| - 1]];
    }
  }

  lemma {:induction false} InsertKeepsSorted<T(!new)>(s: seq<T>, x: T, leq: (T, T) -> bool)
    requires TotalPreorder(leq) && Sorted(s, leq)
    ensures Sorted(Insert(s, x, leq), leq)
  {
    if s != [] {
      var n := |s| - 1;
      if leq(s[n], x) {
        forall i | 0 <= i < |s|
          ensures leq(s[i], x)
        {
          if i < n {
            assert leq(s[i], s[n]);
          }
        }
      } else {
        InsertKeepsSorted(s[..n], x, leq);
        InsertAdds(s[..n], x, leq);
        var inner := Insert(s[..n], x, leq);
        forall i | 0 <= i < |inner|
          ensures leq(inner[i], s[n])
        {
          assert inner[i] in inner;
        }
      }
    }
  }

  /** The result is sorted. */
  lemma {:induction false} SortSorts<T(!new)>(s: seq<T>, leq: (T, T) -> bool)
    requires TotalPreorder(leq)
    ensures Sorted(Sort(s, leq), leq)
  {
    if s != [] {
      SortSorts(s[..|s| - 1], leq);
      InsertKeepsSorted(Sort(s[..|s| - 1], leq), s[|s| - 1], leq);
    }
  }

  /** The result holds the same elements, as often. */
  lemma {:induction false} SortPermutes<T>(s: seq<T>, leq: (T, T) -> bool)
    ensures multiset(Sort(s, leq)) == multiset(s)
    ensures |Sort(s, leq)| == |s|
    ensures forall y :: y in Sort(s, leq) <==> y in s
  {
    if s != [] {
      SortPermutes(s[..|s| - 1], leq);
      InsertAdds(Sort(s[..|s| - 1], leq), s[|s| - 1], leq);
      assert s == s[..|s| - 1] + [s[|s| - 1]];
    }
  }

  lemma {:induction false} InsertKeepsUnique<T>(s: seq<T>, x: T, leq: (T, T) -> bool)
    requires Unique(s) && x !in s
    ensures Unique(Insert(s, x, leq))
  {
    if s != [] && !leq(s[|s| - 1], x) {
      InsertKeepsUnique(s[..|s| - 1], x, leq);
      InsertAdds(s[..|s| - 1], x, leq);
      var inner := Insert(s[..|s| - 1], x, leq);
      forall i | 0 <= i < |inner|
        ensures inner[i] != s[|s| - 1]
      {
        assert inner[i] in inner;
      }
    }
  }

  lemma {:induction false} SortKeepsUnique<T>(s: seq<T>, leq: (T, T) -> bool)
    requires Unique(s)
    ensures Unique(Sort(s, leq))
  {
    if s != [] {
      SortKeepsUnique(s[..|s| - 1], leq);
      SortPermutes(s[..|s| - 1], leq);
      InsertKeepsUnique(Sort(s[..|s| - 1], leq), s[|s| - 1], leq);
    }
  }
}
