/** Sorting by a caller's comparison.  `InsertionSort` stands for Python's
    `list.sort(key=...)`, whose result is a sorted permutation that keeps
    equal keys in their old order; `MergeSort` is the merge sort of
    Login/user_management.py:156-198 with its merge written correctly. */
module Sorting {

  /** `le` is total and transitive: a key order such as `<=` on numbers or
      on strings. */
  ghost predicate TotalPreorder<T(!new)>(le: (T, T) -> bool)
  {
    && (forall a, b :: le(a, b) || le(b, a))
    && (forall a, b, c :: le(a, b) && le(b, c) ==> le(a, c))
  }

  predicate Sorted<T>(s: seq<T>, le: (T, T) -> bool)
  {
    forall i, j | 0 <= i < j < |s| :: le(s[i], s[j])
  }

  /** `x` is at most every element of `s`. */
  predicate Below<T>(x: T, s: seq<T>, le: (T, T) -> bool)
  {
    forall k | 0 <= k < |s| :: le(x, s[k])
  }

  // ---------------------------------------------------------------------
  // Insertion sort

  /** `x` placed before the first element of `s` it is at most. */
  function Insert<T>(x: T, s: seq<T>, le: (T, T) -> bool): (r: seq<T>)
    ensures multiset(r) == multiset(s) + multiset{x}
    ensures |r| == |s| + 1
  {
    if s == [] then [x]
    else if le(x, s[0]) then [x] + s
    else
      assert s == [s[0]] + s[1..];
      [s[0]] + Insert(x, s[1..], le)
  }

  function InsertionSort<T>(s: seq<T>, le: (T, T) -> bool): (r: seq<T>)
    ensures multiset(r) == multiset(s)
    ensures |r| == |s|
  {
    if s == [] then []
    else
      assert s == [s[0]] + s[1..];
      Insert(s[0], InsertionSort(s[1..], le), le)
  }

  lemma BelowByMultiset<T>(y: T, s: seq<T>, r: seq<T>, le: (T, T) -> bool)
    requires Below(y, s, le) && multiset(r) <= multiset(s)
    ensures Below(y, r, le)
  {
    forall k | 0 <= k < |r|
      ensures le(y, r[k])
    {
      assert r[k] in multiset(r);
      var m :| 0 <= m < |s| && s[m] == r[k];
    }
  }

  lemma {:induction false} InsertSorted<T(!new)>(x: T, s: seq<T>, le: (T, T) -> bool)
    requires TotalPreorder(le) && Sorted(s, le)
    ensures Sorted(Insert(x, s, le), le)
    decreases |s|
  {
    if s != [] && !le(x, s[0]) {
      var t := s[1..];
      InsertSorted(x, t, le);
      assert le(s[0], x);
      var r := Insert(x, t, le);
      assert Below(s[0], t + [x], le);
      assert multiset(r) == multiset(t + [x]);
      BelowByMultiset(s[0], t + [x], r, le);
    } else if s != [] {
      assert Below(x, s, le);
    }
  }

  /** What `list.sort` promises: the result is sorted by the key order. */
  lemma {:induction false} InsertionSortSorted<T(!new)>(s: seq<T>, le: (T, T) -> bool)
    requires TotalPreorder(le)
    ensures Sorted(InsertionSort(s, le), le)
    decreases |s|
  {
    if s != [] {
      InsertionSortSorted(s[1..], le);
      InsertSorted(s[0], InsertionSort(s[1..], le), le);
    }
  }

  // ---------------------------------------------------------------------
  // Merge sort

  /** The merge of two sorted halves: the left head goes first when it is
      strictly below the right head (`left[i] < right[j]`), else the right
      head. */
  function Merge<T>(a: seq<T>, b: seq<T>, le: (T, T) -> bool): (r: seq<T>)
    ensures multiset(r) == multiset(a) + multiset(b)
    ensures |r| == |a| + |b|
    decreases |a| + |b|
  {
    if a == [] then b
    else if b == [] then a
    else if !le(b[0], a[0]) then
      assert a == [a[0]] + a[1..];
      [a[0]] + Merge(a[1..], b, le)
    else
      assert b == [b[0]] + b[1..];
      [b[0]] + Merge(a, b[1..], le)
  }

  function MergeSort<T>(s: seq<T>, le: (T, T) -> bool): (r: seq<T>)
    ensures multiset(r) == multiset(s)
    ensures |r| == |s|
    decreases |s|
  {
    if |s| > 1 then
      var mid := |s| / 2;
      assert s == s[..mid] + s[mid..];
      Merge(MergeSort(s[..mid], le), MergeSort(s[mid..], le), le)
    else s
  }

  /** One step of `Merge` on the rest of two sequences from `i` and `j`. */
  lemma MergeStep<T>(a: seq<T>, b: seq<T>, i: nat, j: nat, le: (T, T) -> bool)
    requires i < |a| && j < |b|
    ensures !le(b[j], a[i]) ==> Merge(a[i..], b[j..], le) == [a[i]] + Merge(a[i + 1..], b[j..], le)
    ensures le(b[j], a[i]) ==> Merge(a[i..], b[j..], le) == [b[j]] + Merge(a[i..], b[j + 1..], le)
  {
    assert a[i..][0] == a[i] && a[i..][1..] == a[i + 1..];
    assert b[j..][0] == b[j] && b[j..][1..] == b[j + 1..];
  }

  /** The merge loop's invariant kept when it takes `a[i]`. */
  lemma MergeTakeLeft<T>(a: seq<T>, b: seq<T>, i: nat, j: nat, le: (T, T) -> bool, acc: seq<T>)
    requires i < |a| && j < |b| && !le(b[j], a[i])
    requires acc + Merge(a[i..], b[j..], le) == Merge(a, b, le)
    ensures (acc + [a[i]]) + Merge(a[i + 1..], b[j..], le) == Merge(a, b, le)
  {
    MergeStep(a, b, i, j, le);
    assert (acc + [a[i]]) + Merge(a[i + 1..], b[j..], le) == acc + ([a[i]] + Merge(a[i + 1..], b[j..], le));
  }

  /** ... and when it takes `b[j]`. */
  lemma MergeTakeRight<T>(a: seq<T>, b: seq<T>, i: nat, j: nat, le: (T, T) -> bool, acc: seq<T>)
    requires i < |a| && j < |b| && le(b[j], a[i])
    requires acc + Merge(a[i..], b[j..], le) == Merge(a, b, le)
    ensures (acc + [b[j]]) + Merge(a[i..], b[j + 1..], le) == Merge(a, b, le)
  {
    MergeStep(a, b, i, j, le);
    assert (acc + [b[j]]) + Merge(a[i..], b[j + 1..], le) == acc + ([b[j]] + Merge(a[i..], b[j + 1..], le));
  }

  /** Once one side is used up, the merge is the rest of both. */
  lemma MergeOneSideDone<T>(a: seq<T>, b: seq<T>, i: nat, j: nat, le: (T, T) -> bool, acc: seq<T>)
    requires i <= |a| && j <= |b| && (i == |a| || j == |b|)
    requires acc + Merge(a[i..], b[j..], le) == Merge(a, b, le)
    ensures acc + a[i..] + b[j..] == Merge(a, b, le)
  {
    if i == |a| {
      assert a[i..] == [];
    } else {
      assert b[j..] == [];
    }
  }

  /** Moving the head of the rest `s[i..]` onto the accumulated prefix. */
  lemma MoveHead<T>(acc: seq<T>, s: seq<T>, i: nat, t: seq<T>)
    requires i < |s|
    ensures (acc + [s[i]]) + s[i + 1..] + t == acc + s[i..] + t
  {
    assert s[i..] == [s[i]] + s[i + 1..];
  }

  lemma {:induction false} MergeSorted<T(!new)>(a: seq<T>, b: seq<T>, le: (T, T) -> bool)
    requires TotalPreorder(le) && Sorted(a, le) && Sorted(b, le)
    ensures Sorted(Merge(a, b, le), le)
    decreases |a| + |b|, 1
  {
    if a != [] && b != [] {
      if !le(b[0], a[0]) {
        MergeSortedLeft(a, b, le);
      } else {
        MergeSortedRight(a, b, le);
      }
    }
  }

  /** The step of `MergeSorted` that takes the left head. */
  lemma {:induction false} MergeSortedLeft<T(!new)>(a: seq<T>, b: seq<T>, le: (T, T) -> bool)
    requires TotalPreorder(le) && Sorted(a, le) && Sorted(b, le)
    requires a != [] && b != [] && !le(b[0], a[0])
    ensures Sorted(Merge(a, b, le), le)
    decreases |a| + |b|, 0
  {
    var rest := Merge(a[1..], b, le);
    MergeSorted(a[1..], b, le);
    HeadBelow(a, b, le);
    BelowByMultiset(a[0], a[1..] + b, rest, le);
    SortedCons(a[0], rest, le);
  }

  /** The step of `MergeSorted` that takes the right head. */
  lemma {:induction false} MergeSortedRight<T(!new)>(a: seq<T>, b: seq<T>, le: (T, T) -> bool)
    requires TotalPreorder(le) && Sorted(a, le) && Sorted(b, le)
    requires a != [] && b != [] && le(b[0], a[0])
    ensures Sorted(Merge(a, b, le), le)
    decreases |a| + |b|, 0
  {
    var rest := Merge(a, b[1..], le);
    MergeSorted(a, b[1..], le);
    HeadBelow(b, a, le);
    assert multiset(a + b[1..]) == multiset(b[1..] + a);
    BelowByMultiset(b[0], b[1..] + a, rest, le);
    SortedCons(b[0], rest, le);
  }

  /** The head of a sorted `a` that is at most the head of a sorted `b` is
      at most everything else in both. */
  lemma HeadBelow<T(!new)>(a: seq<T>, b: seq<T>, le: (T, T) -> bool)
    requires TotalPreorder(le) && Sorted(a, le) && Sorted(b, le)
    requires a != [] && b != [] && (le(a[0], b[0]) || !le(b[0], a[0]))
    ensures Below(a[0], a[1..] + b, le)
  {
    var s := a[1..] + b;
    forall k | 0 <= k < |s|
      ensures le(a[0], s[k])
    {
      if k < |a| - 1 {
        assert s[k] == a[k + 1];
      } else {
        assert s[k] == b[k - (|a| - 1)];
        assert le(a[0], b[0]);
        if k - (|a| - 1) > 0 {
          assert le(b[0], s[k]);
        }
      }
    }
  }

  /** An element at most every element of a sorted sequence can go in
      front of it. */
  lemma SortedCons<T>(x: T, s: seq<T>, le: (T, T) -> bool)
    requires Below(x, s, le) && Sorted(s, le)
    ensures Sorted([x] + s, le)
  {
    var r := [x] + s;
    forall i, j | 0 <= i < j < |r|
      ensures le(r[i], r[j])
    {
      if i == 0 {
        assert r[j] == s[j - 1];
      } else {
        assert r[i] == s[i - 1] && r[j] == s[j - 1];
      }
    }
  }

  /** The corrected `merge_sort` sorts. */
  lemma {:induction false} MergeSortSorted<T(!new)>(s: seq<T>, le: (T, T) -> bool)
    requires TotalPreorder(le)
    ensures Sorted(MergeSort(s, le), le)
    decreases |s|
  {
    if |s| > 1 {
      var mid := |s| / 2;
      MergeSortSorted(s[..mid], le);
      MergeSortSorted(s[mid..], le);
      MergeSorted(MergeSort(s[..mid], le), MergeSort(s[mid..], le), le);
    }
  }
}
