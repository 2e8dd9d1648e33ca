/** Sums, filters and sorting over sequences, shared by the domain models. */
module Sequences {

  datatype Option<+T> = None | Some(value: T)

  // ---------------------------------------------------------------- sums

  /** The sum of `f` over `s`. */
  function Sum<T>(s: seq<T>, f: T -> int): int {
    if |s| == 0 then 0 else Sum(s[..|s| - 1], f) + f(s[|s| - 1])
  }

  lemma {:induction false} SumAppend<T>(a: seq<T>, b: seq<T>, f: T -> int)
    ensures Sum(a + b, f) == Sum(a, f) + Sum(b, f)
  {
    if |b| == 0 {
      assert a + b == a;
    } else {
      SumAppend(a, b[..|b| - 1], f);
      assert (a + b)[..|a + b| - 1] == a + b[..|b| - 1];
    }
  }

  lemma {:induction false} SumEqual<T>(s: seq<T>, f: T -> int, g: T -> int)
    requires forall x :: x in s ==> f(x) == g(x)
    ensures Sum(s, f) == Sum(s, g)
  {
    if |s| != 0 {
      SumEqual(s[..|s| - 1], f, g);
    }
  }

  lemma {:induction false} SumZero<T>(s: seq<T>, f: T -> int)
    requires forall x :: x in s ==> f(x) == 0
    ensures Sum(s, f) == 0
  {
    if |s| != 0 {
      SumZero(s[..|s| - 1], f);
    }
  }

  /** Sums of non-negative terms are non-negative, and each term bounds the sum from below. */
  lemma {:induction false} SumNonNegative<T>(s: seq<T>, f: T -> int)
    requires forall x :: x in s ==> f(x) >= 0
    ensures Sum(s, f) >= 0
    ensures forall x :: x in s ==> f(x) <= Sum(s, f)
  {
    if |s| != 0 {
      SumNonNegative(s[..|s| - 1], f);
    }
  }

  lemma {:induction false} SumAtMost<T>(s: seq<T>, f: T -> int, g: T -> int)
    requires forall x :: x in s ==> f(x) <= g(x)
    ensures Sum(s, f) <= Sum(s, g)
  {
    if |s| != 0 {
      SumAtMost(s[..|s| - 1], f, g);
    }
  }

  lemma {:induction false} SumOnly<T>(s: seq<T>, i: nat, f: T -> int)
    requires i < |s| && forall j :: 0 <= j < |s| && j != i ==> f(s[j]) == 0
    ensures Sum(s, f) == f(s[i])
  {
    if i == |s| - 1 {
      SumZero(s[..|s| - 1], f);
    } else {
      SumOnly(s[..|s| - 1], i, f);
    }
  }

  lemma {:induction false} SumUpdate<T>(s: seq<T>, i: nat, x: T, f: T -> int)
    requires i < |s|
    ensures Sum(s[i := x], f) == Sum(s, f) - f(s[i]) + f(x)
  {
    var front, back := s[..i], s[i + 1..];
    assert s == front + ([s[i]] + back);
    assert s[i := x] == front + ([x] + back);
    SumAppend(front, [s[i]] + back, f);
    SumAppend(front, [x] + back, f);
    SumAppend([s[i]], back, f);
    SumAppend([x], back, f);
  }

  lemma {:induction false} SumSplit<T>(s: seq<T>, f: T -> int, g: T -> int, h: T -> int)
    requires forall x :: x in s ==> f(x) == g(x) + h(x)
    ensures Sum(s, f) == Sum(s, g) + Sum(s, h)
  {
    if |s| != 0 {
      SumSplit(s[..|s| - 1], f, g, h);
    }
  }

  function Scaled<T>(c: int, f: T -> int): T -> int {
    x => c * f(x)
  }

  lemma {:induction false} SumScaled<T>(s: seq<T>, c: int, f: T -> int)
    ensures Sum(s, Scaled(c, f)) == c * Sum(s, f)
  {
    if |s| != 0 {
      SumScaled(s[..|s| - 1], c, f);
    }
  }

  // ------------------------------------------------------------- filters

  function Filter<T(!new)>(s: seq<T>, p: T -> bool): (r: seq<T>)
    ensures forall x :: x in r <==> x in s && p(x)
  {
    if |s| == 0 then []
    else
      var front := Filter(s[..|s| - 1], p);
      if p(s[|s| - 1]) then front + [s[|s| - 1]] else front
  }

  lemma {:induction false} FilterAppend<T(!new)>(a: seq<T>, b: seq<T>, p: T -> bool)
    ensures Filter(a + b, p) == Filter(a, p) + Filter(b, p)
  {
    if |b| == 0 {
      assert a + b == a;
    } else {
      FilterAppend(a, b[..|b| - 1], p);
      assert (a + b)[..|a + b| - 1] == a + b[..|b| - 1];
    }
  }

  lemma {:induction false} FilterAll<T(!new)>(s: seq<T>, p: T -> bool)
    requires forall x :: x in s ==> p(x)
    ensures Filter(s, p) == s
  {
    if |s| != 0 {
      FilterAll(s[..|s| - 1], p);
      assert s == s[..|s| - 1] + [s[|s| - 1]];
    }
  }

  lemma {:induction false} FilterNone<T(!new)>(s: seq<T>, p: T -> bool)
    requires forall x :: x in s ==> !p(x)
    ensures Filter(s, p) == []
  {
    if |s| != 0 {
      FilterNone(s[..|s| - 1], p);
    }
  }

  lemma {:induction false} FilterEqual<T(!new)>(s: seq<T>, p: T -> bool, q: T -> bool)
    requires forall x :: x in s ==> p(x) == q(x)
    ensures Filter(s, p) == Filter(s, q)
  {
    if |s| != 0 {
      FilterEqual(s[..|s| - 1], p, q);
    }
  }

  lemma {:induction false} FilterWithin<T(!new)>(s: seq<T>, p: T -> bool, q: T -> bool)
    requires forall x :: x in s && q(x) ==> p(x)
    ensures Filter(Filter(s, p), q) == Filter(s, q)
  {
    if |s| != 0 {
      FilterWithin(s[..|s| - 1], p, q);
      var last := s[|s| - 1];
      FilterAppend(Filter(s[..|s| - 1], p), [last], q);
      assert [last][..0] == [];
      assert Filter([last], q) == if q(last) then [last] else [];
    }
  }

  lemma {:induction false} FilterShortens<T(!new)>(s: seq<T>, p: T -> bool)
    ensures |Filter(s, p)| <= |s|
    ensures (exists x :: x in s && !p(x)) ==> |Filter(s, p)| < |s|
  {
    if |s| != 0 {
      FilterShortens(s[..|s| - 1], p);
    }
  }

  lemma FilterUpdate<T(!new)>(s: seq<T>, i: nat, x: T, p: T -> bool)
    requires i < |s| && !p(s[i]) && !p(x)
    ensures Filter(s[i := x], p) == Filter(s, p)
  {
    var front, back := s[..i], s[i + 1..];
    assert s == front + ([s[i]] + back) && s[i := x] == front + ([x] + back);
    FilterAppend(front, [s[i]] + back, p);
    FilterAppend(front, [x] + back, p);
    FilterAppend([s[i]], back, p);
    FilterAppend([x], back, p);
  }

  /** `f` where `p` holds and zero elsewhere. */
  function Where<T>(p: T -> bool, f: T -> int): T -> int {
    x => if p(x) then f(x) else 0
  }

  lemma {:induction false} SumFilter<T(!new)>(s: seq<T>, p: T -> bool, f: T -> int)
    ensures Sum(Filter(s, p), f) == Sum(s, Where(p, f))
  {
    if |s| != 0 {
      SumFilter(s[..|s| - 1], p, f);
      if p(s[|s| - 1]) {
        SumAppend(Filter(s[..|s| - 1], p), [s[|s| - 1]], f);
      }
    }
  }

  /** Every earlier element is related to every later one. */
  ghost predicate Pairwise<T>(s: seq<T>, r: (T, T) -> bool) {
    forall i, j :: 0 <= i < j < |s| ==> r(s[i], s[j])
  }

  lemma {:induction false} PairwiseAppend<T>(a: seq<T>, b: seq<T>, r: (T, T) -> bool)
    requires Pairwise(a, r) && Pairwise(b, r)
    requires forall x, y :: x in a && y in b ==> r(x, y)
    ensures Pairwise(a + b, r)
  {
    forall i, j | 0 <= i < j < |a + b|
      ensures r((a + b)[i], (a + b)[j])
    {
      if i < |a| && |a| <= j {
        assert a[i] in a && b[j - |a|] in b;
      }
    }
  }

  lemma {:induction false} PairwiseFilter<T(!new)>(s: seq<T>, p: T -> bool, r: (T, T) -> bool)
    requires Pairwise(s, r)
    ensures Pairwise(Filter(s, p), r)
  {
    if |s| != 0 {
      var front, last := s[..|s| - 1], s[|s| - 1];
      PairwiseFilter(front, p, r);
      if p(last) {
        forall x | x in Filter(front, p)
          ensures r(x, last)
        {
          assert x in front;
        }
        PairwiseAppend(Filter(front, p), [last], r);
      }
    }
  }

  // -------------------------------------------------------------- sorting

  /** Inserts `x` before the first element it does not follow. */
  function InsertSorted<T>(le: (T, T) -> bool, x: T, s: seq<T>): (r: seq<T>)
    ensures multiset(r) == multiset{x} + multiset(s)
  {
    if |s| == 0 then [x]
    else if le(x, s[0]) then [x] + s
    else
      assert s == [s[0]] + s[1..];
      [s[0]] + InsertSorted(le, x, s[1..])
  }

  /** ORDER BY: a sorted rearrangement of `s`. */
  function SortBy<T>(le: (T, T) -> bool, s: seq<T>): (r: seq<T>)
    ensures multiset(r) == multiset(s)
  {
    if |s| == 0 then []
    else
      assert s == [s[0]] + s[1..];
      InsertSorted(le, s[0], SortBy(le, s[1..]))
  }

  ghost predicate Sorted<T>(le: (T, T) -> bool, s: seq<T>) {
    forall i, j :: 0 <= i < j < |s| ==> le(s[i], s[j])
  }

  ghost predicate TotalOn<T>(le: (T, T) -> bool, s: seq<T>) {
    forall i, j :: 0 <= i < |s| && 0 <= j < |s| ==> le(s[i], s[j]) || le(s[j], s[i])
  }

  ghost predicate Transitive<T(!new)>(le: (T, T) -> bool) {
    forall x, y, z :: le(x, y) && le(y, z) ==> le(x, z)
  }

  lemma {:induction false} SameElements<T>(a: seq<T>, b: seq<T>)
    requires multiset(a) == multiset(b)
    ensures |a| == |b|
    ensures forall x :: x in a <==> x in b
  {
    assert |a| == |multiset(a)| == |multiset(b)| == |b|;
    forall x ensures x in a <==> x in b {
      assert x in a <==> x in multiset(a);
      assert x in b <==> x in multiset(b);
    }
  }

  lemma {:induction false} InsertKeepsSorted<T(!new)>(le: (T, T) -> bool, x: T, s: seq<T>)
    requires forall y :: y in s ==> le(x, y) || le(y, x)
    requires Transitive(le) && Sorted(le, s)
    ensures Sorted(le, InsertSorted(le, x, s))
  {
    if |s| != 0 {
      if le(x, s[0]) {
        forall i | 0 <= i < |s|
          ensures le(x, s[i])
        {
          assert i == 0 || le(s[0], s[i]);
        }
      } else {
        assert s[0] in s && le(s[0], x);
        InsertKeepsSorted(le, x, s[1..]);
        var rest := InsertSorted(le, x, s[1..]);
        SameElements(rest, [x] + s[1..]);
        forall i | 0 <= i < |rest|
          ensures le(s[0], rest[i])
        {
          assert rest[i] in rest;
          assert rest[i] == x || rest[i] in s[1..];
        }
      }
    }
  }

  lemma {:induction false} SortBySorts<T(!new)>(le: (T, T) -> bool, s: seq<T>)
    requires TotalOn(le, s) && Transitive(le)
    ensures Sorted(le, SortBy(le, s))
  {
    if |s| != 0 {
      assert TotalOn(le, s[1..]) by {
        forall i, j | 0 <= i < |s[1..]| && 0 <= j < |s[1..]|
          ensures le(s[1..][i], s[1..][j]) || le(s[1..][j], s[1..][i])
        {
          assert s[1..][i] == s[i + 1] && s[1..][j] == s[j + 1];
        }
      }
      SortBySorts(le, s[1..]);
      SameElements(SortBy(le, s[1..]), s[1..]);
      forall y | y in SortBy(le, s[1..])
        ensures le(s[0], y) || le(y, s[0])
      {
        assert y in s[1..];
        var k :| 0 <= k < |s[1..]| && s[1..][k] == y;
        assert y == s[k + 1];
      }
      InsertKeepsSorted(le, s[0], SortBy(le, s[1..]));
    }
  }

  lemma {:induction false} SumInsertSorted<T>(le: (T, T) -> bool, x: T, s: seq<T>, f: T -> int)
    ensures Sum(InsertSorted(le, x, s), f) == f(x) + Sum(s, f)
  {
    if |s| != 0 {
      if le(x, s[0]) {
        SumAppend([x], s, f);
      } else {
        SumInsertSorted(le, x, s[1..], f);
        SumAppend([s[0]], InsertSorted(le, x, s[1..]), f);
        assert s == [s[0]] + s[1..];
        SumAppend([s[0]], s[1..], f);
      }
    }
  }

  /** ORDER BY does not change a sum. */
  lemma {:induction false} SumSortBy<T>(le: (T, T) -> bool, s: seq<T>, f: T -> int)
    ensures Sum(SortBy(le, s), f) == Sum(s, f)
  {
    if |s| != 0 {
      SumSortBy(le, s[1..], f);
      SumInsertSorted(le, s[0], SortBy(le, s[1..]), f);
      assert s == [s[0]] + s[1..];
      SumAppend([s[0]], s[1..], f);
    }
  }

  ghost predicate Distinct<T>(s: seq<T>) {
    forall i, j :: 0 <= i < j < |s| ==> s[i] != s[j]
  }

  /** A rearrangement of pairwise distinct elements has pairwise distinct elements. */
  lemma {:induction false} DistinctRearranged<T>(a: seq<T>, b: seq<T>)
    requires multiset(a) == multiset(b) && Distinct(a)
    ensures Distinct(b)
  {
    forall i, j | 0 <= i < j < |b|
      ensures b[i] != b[j]
    {
      if b[i] == b[j] {
        var x := b[i];
        assert b == b[..i] + [x] + b[i + 1..j] + [x] + b[j + 1..];
        assert multiset(b)[x] >= 2;
        DistinctOccursOnce(a, x);
      }
    }
  }

  lemma {:induction false} DistinctOccursOnce<T>(s: seq<T>, x: T)
    requires Distinct(s)
    ensures multiset(s)[x] <= 1
  {
    if |s| != 0 {
      assert s == s[..|s| - 1] + [s[|s| - 1]];
      DistinctOccursOnce(s[..|s| - 1], x);
      if x == s[|s| - 1] {
        assert x !in s[..|s| - 1];
        assert x !in multiset(s[..|s| - 1]);
      }
    }
  }
}
