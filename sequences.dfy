/** The Array.prototype operations the JavaScript code relies on (`filter`,
    `findIndex`, `reduce` to a sum, a stable `sort`), stated once over `seq`. */
module Sequences {

  /** `a` is `b` with some elements dropped, order kept. */
  predicate IsSubsequence<T(==)>(a: seq<T>, b: seq<T>)
    decreases |b|
  {
    if a == [] then true
    else if b == [] then false
    else (a[0] == b[0] && IsSubsequence(a[1..], b[1..])) || IsSubsequence(a, b[1..])
  }

  /** What is a subsequence of a suffix is a subsequence of the whole. */
  lemma {:induction false} SubsequenceOfDrop<T>(a: seq<T>, b: seq<T>, e: nat)
    requires e <= |b| && IsSubsequence(a, b[e..])
    decreases e
    ensures IsSubsequence(a, b)
  {
    if e > 0 {
      assert b[1..][e - 1..] == b[e..];
      SubsequenceOfDrop(a, b[1..], e - 1);
    }
  }

  /** `s.filter(p)`. */
  function Filter<T>(s: seq<T>, p: T -> bool): seq<T>
  {
    if s == [] then []
    else if p(s[0]) then [s[0]] + Filter(s[1..], p)
    else Filter(s[1..], p)
  }

  /** The elements kept are those of `s` that satisfy `p`, in their order. */
  lemma {:induction false} FilterSpec<T>(s: seq<T>, p: T -> bool)
    ensures IsSubsequence(Filter(s, p), s)
    ensures |Filter(s, p)| <= |s|
    ensures forall x :: x in Filter(s, p) <==> x in s && p(x)
  {
    if s != [] {
      FilterSpec(s[1..], p);
      var r := Filter(s[1..], p);
      if p(s[0]) {
        assert ([s[0]] + r)[0] == s[0] && ([s[0]] + r)[1..] == r;
      } else {
        if r != [] {
          assert IsSubsequence(r, s[1..]);
        }
      }
      assert s == [s[0]] + s[1..];
    }
  }

  /** Filtering twice is filtering once by the conjunction. */
  lemma {:induction false} FilterFuse<T>(s: seq<T>, f: T -> bool, g: T -> bool, h: T -> bool)
    requires forall x :: h(x) == (f(x) && g(x))
    ensures Filter(Filter(s, f), g) == Filter(s, h)
  {
    if s != [] {
      FilterFuse(s[1..], f, g, h);
      if f(s[0]) {
        assert ([s[0]] + Filter(s[1..], f))[1..] == Filter(s[1..], f);
      }
    }
  }

  /** A filter whose predicate holds everywhere keeps everything. */
  lemma {:induction false} FilterAll<T>(s: seq<T>, p: T -> bool)
    requires forall i :: 0 <= i < |s| ==> p(s[i])
    ensures Filter(s, p) == s
  {
    if s != [] {
      FilterAll(s[1..], p);
      assert s == [s[0]] + s[1..];
    }
  }

  /** Two predicates that agree give the same filter. */
  lemma {:induction false} FilterSame<T>(s: seq<T>, f: T -> bool, g: T -> bool)
    requires forall x :: f(x) == g(x)
    ensures Filter(s, f) == Filter(s, g)
  {
    if s != [] {
      FilterSame(s[1..], f, g);
    }
  }

  /** `s.findIndex(p)`: the first index whose element satisfies `p`, or -1. */
  function FindIndex<T>(s: seq<T>, p: T -> bool): (k: int)
    ensures -1 <= k < |s|
    ensures k == -1 <==> forall i :: 0 <= i < |s| ==> !p(s[i])
    ensures k >= 0 ==> p(s[k]) && forall i :: 0 <= i < k ==> !p(s[i])
  {
    if s == [] then -1
    else if p(s[0]) then 0
    else
      var k := FindIndex(s[1..], p);
      if k == -1 then -1 else k + 1
  }

  /** `s.reduce((sum, x) => sum + f(x), 0)`. */
  function Sum<T>(s: seq<T>, f: T -> int): int
  {
    if s == [] then 0 else Sum(s[..|s| - 1], f) + f(s[|s| - 1])
  }

  lemma {:induction false} SumAppend<T>(a: seq<T>, b: seq<T>, f: T -> int)
    ensures Sum(a + b, f) == Sum(a, f) + Sum(b, f)
    decreases |b|
  {
    if b == [] {
      assert a + b == a;
    } else {
      var b' := b[..|b| - 1];
      SumAppend(a, b', f);
      assert (a + b)[..|a + b| - 1] == a + b';
    }
  }
  lemma SumHead<T>(x: T, s: seq<T>, f: T -> int)
    ensures Sum([x] + s, f) == f(x) + Sum(s, f)
  {
    SumAppend([x], s, f);
    assert [x][..0] == [];
  }

  /** Replacing one element changes the sum by the difference of the two. */
  lemma {:induction false} SumUpdate<T>(s: seq<T>, k: int, y: T, f: T -> int)
    requires 0 <= k < |s|
    ensures Sum(s[k := y], f) == Sum(s, f) - f(s[k]) + f(y)
  {
    var n := |s| - 1;
    assert s[k := y][..n] == if k == n then s[..n] else s[..n][k := y];
    if k < n {
      SumUpdate(s[..n], k, y, f);
    }
  }

  /** Filtering a concatenation filters each part. */
  lemma {:induction false} FilterAppend<T>(a: seq<T>, b: seq<T>, p: T -> bool)
    ensures Filter(a + b, p) == Filter(a, p) + Filter(b, p)
  {
    if a != [] {
      FilterAppend(a[1..], b, p);
      assert (a + b)[1..] == a[1..] + b;
    } else {
      assert a + b == b;
    }
  }


  /** The sum over a sequence whose elements all contribute nothing is zero. */
  lemma {:induction false} SumZero<T>(s: seq<T>, f: T -> int)
    requires forall i :: 0 <= i < |s| ==> f(s[i]) == 0
    ensures Sum(s, f) == 0
  {
    if s != [] {
      SumZero(s[..|s| - 1], f);
    }
  }

  /** A sum of non-negative terms is non-negative. */
  lemma {:induction false} SumNonNegative<T>(s: seq<T>, f: T -> int)
    requires forall i :: 0 <= i < |s| ==> f(s[i]) >= 0
    ensures Sum(s, f) >= 0
  {
    if s != [] {
      SumNonNegative(s[..|s| - 1], f);
    }
  }

  /** Sum over the elements kept by a filter equals the sum over all elements
      of the term masked to zero where the filter drops. */
  lemma {:induction false} SumFilter<T>(s: seq<T>, p: T -> bool, f: T -> int, g: T -> int)
    requires forall x :: g(x) == (if p(x) then f(x) else 0)
    ensures Sum(Filter(s, p), f) == Sum(s, g)
  {
    if s != [] {
      SumFilter(s[1..], p, f, g);
      assert s == [s[0]] + s[1..];
      SumAppend([s[0]], s[1..], g);
      if p(s[0]) {
        SumAppend([s[0]], Filter(s[1..], p), f);
      }
    }
  }

  /** `le` orders every pair and is transitive: what a sort comparator must be. */
  ghost predicate TotalPreorder<T(!new)>(le: (T, T) -> bool)
  {
    && (forall a, b :: le(a, b) || le(b, a))
    && (forall a, b, c :: le(a, b) && le(b, c) ==> le(a, c))
  }

  ghost predicate Sorted<T>(s: seq<T>, le: (T, T) -> bool)
  {
    forall i, j :: 0 <= i < j < |s| ==> le(s[i], s[j])
  }

  /** Places `x` before the first element it may precede; an element that
      ties with `x` stays after it. */
  function Insert<T>(x: T, s: seq<T>, le: (T, T) -> bool): seq<T>
  {
    if s == [] then [x]
    else if le(x, s[0]) then [x] + s
    else [s[0]] + Insert(x, s[1..], le)
  }

  /** Insertion sort: the head is inserted in front of every element it ties
      with, so equal elements keep their original order, as `Array.prototype.sort`
      guarantees. */
  function Sort<T>(s: seq<T>, le: (T, T) -> bool): seq<T>
  {
    if s == [] then [] else Insert(s[0], Sort(s[1..], le), le)
  }

  lemma {:induction false} InsertPermutes<T>(x: T, s: seq<T>, le: (T, T) -> bool)
    ensures multiset(Insert(x, s, le)) == multiset(s) + multiset{x}
    ensures |Insert(x, s, le)| == |s| + 1
  {
    if s != [] && !le(x, s[0]) {
      InsertPermutes(x, s[1..], le);
      assert s == [s[0]] + s[1..];
    }
  }

  lemma {:induction false} InsertSorted<T(!new)>(x: T, s: seq<T>, le: (T, T) -> bool)
    requires TotalPreorder(le) && Sorted(s, le)
    ensures Sorted(Insert(x, s, le), le)
  {
    if s != [] && !le(x, s[0]) {
      InsertSorted(x, s[1..], le);
      InsertPermutes(x, s[1..], le);
      var r := Insert(x, s[1..], le);
      forall k | 0 <= k < |r|
        ensures le(s[0], r[k])
      {
        assert r[k] in multiset(r);
        assert r[k] in multiset(s[1..]) + multiset{x};
        if r[k] != x {
          assert r[k] in s[1..];
          var j :| 0 <= j < |s[1..]| && s[1..][j] == r[k];
          assert s[j + 1] == r[k];
        }
      }
      assert forall i, j :: 0 <= i < j < |[s[0]] + r| ==> le(([s[0]] + r)[i], ([s[0]] + r)[j]) by {
        forall i, j | 0 <= i < j < |[s[0]] + r|
          ensures le(([s[0]] + r)[i], ([s[0]] + r)[j])
        {
          if i == 0 {
            assert ([s[0]] + r)[j] == r[j - 1];
          } else {
            assert ([s[0]] + r)[i] == r[i - 1] && ([s[0]] + r)[j] == r[j - 1];
          }
        }
      }
    }
  }

  /** Sorting yields an ordered permutation of its input. */
  lemma {:induction false} SortSpec<T(!new)>(s: seq<T>, le: (T, T) -> bool)
    ensures multiset(Sort(s, le)) == multiset(s)
    ensures |Sort(s, le)| == |s|
    ensures TotalPreorder(le) ==> Sorted(Sort(s, le), le)
  {
    if s != [] {
      SortSpec(s[1..], le);
      InsertPermutes(s[0], Sort(s[1..], le), le);
      assert s == [s[0]] + s[1..];
      if TotalPreorder(le) {
        InsertSorted(s[0], Sort(s[1..], le), le);
      }
    }
  }
}
