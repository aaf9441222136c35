/** Subsequences, concatenation of a list of sequences, filtering, and the size of subsets. */
module Sequences {

  /** `a` can be had from `b` by deleting elements. */
  ghost predicate Subsequence<T>(a: seq<T>, b: seq<T>) {
    a == [] ||
    (b != [] && ((a[0] == b[0] && Subsequence(a[1..], b[1..])) || Subsequence(a, b[1..])))
  }

  lemma {:induction false} SubsequenceOfItself<T>(a: seq<T>)
    ensures Subsequence(a, a)
  {
    if a != [] {
      SubsequenceOfItself(a[1..]);
    }
  }

  lemma {:induction false} SubsequenceConcat<T>(a: seq<T>, b: seq<T>, c: seq<T>, d: seq<T>)
    requires Subsequence(a, b) && Subsequence(c, d)
    ensures Subsequence(a + c, b + d)
  {
    if b == [] {
      assert a + c == c && b + d == d;
    } else {
      assert (b + d)[1..] == b[1..] + d;
      if a != [] && a[0] == b[0] && Subsequence(a[1..], b[1..]) {
        SubsequenceConcat(a[1..], b[1..], c, d);
        assert (a + c)[1..] == a[1..] + c;
      } else {
        SubsequenceConcat(a, b[1..], c, d);
      }
    }
  }

  /** Anything may be put before, between or after. */
  lemma SubsequencePadded<T>(a: seq<T>, before: seq<T>, b: seq<T>, after: seq<T>)
    requires Subsequence(a, b)
    ensures Subsequence(a, before + b + after)
  {
    SubsequenceConcat([], before, a, b);
    SubsequenceConcat([] + a, before + b, [], after);
    assert [] + a + [] == a;
  }

  lemma {:induction false} SubsequenceIsTransitive<T>(a: seq<T>, b: seq<T>, c: seq<T>)
    requires Subsequence(a, b) && Subsequence(b, c)
    ensures Subsequence(a, c)
    decreases |c|
  {
    if a != [] && b != [] {
      if b[0] == c[0] && Subsequence(b[1..], c[1..]) {
        if a[0] == b[0] && Subsequence(a[1..], b[1..]) {
          SubsequenceIsTransitive(a[1..], b[1..], c[1..]);
        } else {
          SubsequenceIsTransitive(a, b[1..], c[1..]);
        }
      } else {
        SubsequenceIsTransitive(a, b, c[1..]);
      }
    }
  }

  /** All the parts, one after the other. */
  function Flatten<T>(parts: seq<seq<T>>): seq<T> {
    if parts == [] then [] else parts[0] + Flatten(parts[1..])
  }

  lemma {:induction false} FlattenConcat<T>(a: seq<seq<T>>, b: seq<seq<T>>)
    ensures Flatten(a + b) == Flatten(a) + Flatten(b)
  {
    hide Flatten;
    FlattenUnfold(a);
    if a == [] {
      assert a + b == b;
    } else {
      FlattenConcat(a[1..], b);
      FlattenUnfold(a + b);
      assert (a + b)[1..] == a[1..] + b;
    }
  }

  lemma FlattenUnfold<T>(parts: seq<seq<T>>)
    ensures Flatten(parts) == if parts == [] then [] else parts[0] + Flatten(parts[1..])
  {
  }

  lemma FlattenAppend<T>(a: seq<seq<T>>, last: seq<T>)
    ensures Flatten(a + [last]) == Flatten(a) + last
  {
    FlattenConcat(a, [last]);
    assert Flatten([last]) == last + Flatten([]);
  }

  lemma FlattenOne<T>(part: seq<T>)
    ensures Flatten([part]) == part
  {
    assert Flatten([part]) == part + Flatten([]);
  }

  /** What is left of `s` once the elements of `dropped` are deleted. */
  function Without<T(==)>(s: seq<T>, dropped: set<T>): seq<T> {
    if s == [] then []
    else (if s[0] in dropped then [] else [s[0]]) + Without(s[1..], dropped)
  }

  lemma {:induction false} WithoutConcat<T>(a: seq<T>, b: seq<T>, dropped: set<T>)
    ensures Without(a + b, dropped) == Without(a, dropped) + Without(b, dropped)
  {
    hide Without;
    WithoutUnfold(a, dropped);
    if a == [] {
      assert a + b == b;
    } else {
      WithoutConcat(a[1..], b, dropped);
      WithoutUnfold(a + b, dropped);
      assert (a + b)[1..] == a[1..] + b;
    }
  }

  lemma WithoutUnfold<T>(s: seq<T>, dropped: set<T>)
    ensures Without(s, dropped)
            == if s == [] then [] else (if s[0] in dropped then [] else [s[0]]) + Without(s[1..], dropped)
  {
  }

  lemma {:induction false} WithoutAll<T>(s: seq<T>, dropped: set<T>)
    requires forall x :: x in s ==> x in dropped
    ensures Without(s, dropped) == []
  {
    if s != [] {
      WithoutAll(s[1..], dropped);
    }
  }

  lemma {:induction false} WithoutSubsequence<T>(a: seq<T>, b: seq<T>, dropped: set<T>)
    requires Subsequence(a, b)
    ensures Subsequence(Without(a, dropped), Without(b, dropped))
    decreases |b|
  {
    if a != [] {
      if a[0] == b[0] && Subsequence(a[1..], b[1..]) {
        WithoutSubsequence(a[1..], b[1..], dropped);
        var kept := if a[0] in dropped then [] else [a[0]];
        SubsequenceOfItself(kept);
        SubsequenceConcat(kept, kept, Without(a[1..], dropped), Without(b[1..], dropped));
      } else {
        WithoutSubsequence(a, b[1..], dropped);
        SubsequenceConcat([], if b[0] in dropped then [] else [b[0]], Without(a, dropped), Without(b[1..], dropped));
        assert [] + Without(a, dropped) == Without(a, dropped);
      }
    }
  }

  // ---- Sets ----

  lemma {:induction false} SubsetSize<T>(a: set<T>, b: set<T>)
    requires a <= b
    ensures |a| <= |b|
    decreases a
  {
    if a != {} {
      var x :| x in a;
      SubsetSize(a - {x}, b - {x});
    }
  }
}
