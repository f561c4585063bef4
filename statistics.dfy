/**
  Sorting and the median of a column of numbers, as pandas computes it when it fills
  missing cells (the middle element for an odd count, the mean of the two middle
  elements for an even count).
 */
module Statistics {
  import Multisets

  /** `s` is in non-decreasing order. */
  ghost predicate Sorted(s: seq<real>)
  {
    forall i, j :: 0 <= i < j < |s| ==> s[i] <= s[j]
  }

  /** Inserts `x` into the sorted sequence `s`, keeping it sorted. */
  function Insert(x: real, s: seq<real>): (r: seq<real>)
    requires Sorted(s)
    ensures Sorted(r)
    ensures multiset(r) == multiset(s) + multiset{x}
    ensures |r| == |s| + 1
  {
    if s == [] || x <= s[0] then
      ConsSorted(x, s);
      [x] + s
    else
      var rest := Insert(x, s[1..]);
      HeadNotGreater(x, s, rest);
      ConsSorted(s[0], rest);
      assert s == [s[0]] + s[1..];
      [s[0]] + rest
  }

  /** The head of `s` is at most the greater `x` and the rest of `s`. */
  lemma HeadNotGreater(x: real, s: seq<real>, rest: seq<real>)
    requires Sorted(s) && |s| > 0 && s[0] < x
    requires multiset(rest) == multiset(s[1..]) + multiset{x}
    ensures forall k :: 0 <= k < |rest| ==> s[0] <= rest[k]
  {
    forall k | 0 <= k < |rest|
      ensures s[0] <= rest[k]
    {
      assert rest[k] in multiset(rest);
      if rest[k] != x {
        TailNotSmaller(s, rest[k]);
      }
    }
  }

  lemma TailNotSmaller(s: seq<real>, y: real)
    requires Sorted(s) && |s| > 0 && y in multiset(s[1..])
    ensures s[0] <= y
  {
    var i :| 0 <= i < |s| - 1 && s[1..][i] == y;
    assert s[i + 1] == y;
  }

  /** Putting a least element in front keeps a sequence sorted. */
  lemma ConsSorted(h: real, t: seq<real>)
    requires Sorted(t)
    requires forall k :: 0 <= k < |t| ==> h <= t[k]
    ensures Sorted([h] + t)
  {
  }

  /** Insertion sort: a sorted permutation of `s`. */
  function Sort(s: seq<real>): (r: seq<real>)
    ensures Sorted(r)
    ensures multiset(r) == multiset(s)
    ensures |r| == |s|
  {
    if s == [] then []
    else
      assert s == [s[0]] + s[1..];
      Insert(s[0], Sort(s[1..]))
  }

  /** The middle of a sorted sequence: the middle element for an odd count, the mean
      of the two middle elements for an even count. */
  function Middle(s: seq<real>): real
    requires |s| > 0
  {
    var n := |s|;
    if n % 2 == 1 then s[n / 2] else (s[n / 2 - 1] + s[n / 2]) / 2.0
  }

  /** The middle lies between the two central elements and is the central element
      for an odd count. */
  lemma MiddleBetween(s: seq<real>)
    requires |s| > 0 && Sorted(s)
    ensures |s| % 2 == 1 ==> Middle(s) == s[|s| / 2]
    ensures s[(|s| - 1) / 2] <= Middle(s) <= s[|s| / 2]
  {
    var n := |s|;
    if n % 2 == 0 {
      assert (n - 1) / 2 == n / 2 - 1;
      assert s[n / 2 - 1] <= s[n / 2];
    } else {
      assert (n - 1) / 2 == n / 2;
    }
  }

  /** The median of a non-empty sequence of numbers: it lies between the smallest and
      the largest of them, and for an odd count it is one of them. */
  function Median(xs: seq<real>): (m: real)
    requires |xs| > 0
    ensures exists lo :: lo in xs && lo <= m
    ensures exists hi :: hi in xs && m <= hi
    ensures |xs| % 2 == 1 ==> m in xs
  {
    MiddleWitnesses(xs);
    Middle(Sort(xs))
  }

  /** The central elements of the sorted sequence come from the input and bracket the middle. */
  lemma MiddleWitnesses(xs: seq<real>)
    requires |xs| > 0
    ensures Sort(xs)[(|xs| - 1) / 2] in xs && Sort(xs)[(|xs| - 1) / 2] <= Middle(Sort(xs))
    ensures Sort(xs)[|xs| / 2] in xs && Middle(Sort(xs)) <= Sort(xs)[|xs| / 2]
    ensures |xs| % 2 == 1 ==> Middle(Sort(xs)) == Sort(xs)[|xs| / 2]
  {
    var s := Sort(xs);
    assert |s| == |xs|;
    SortedElement(xs, |xs| / 2);
    SortedElement(xs, (|xs| - 1) / 2);
    MiddleBetween(s);
  }

  /** Every element of the sorted sequence is an element of the input. */
  lemma SortedElement(xs: seq<real>, k: nat)
    requires k < |xs|
    ensures Sort(xs)[k] in xs
  {
    assert Sort(xs)[k] in multiset(Sort(xs));
  }

  /** The first element of a sorted sequence is its least element. */
  lemma HeadIsLeast(s: seq<real>, x: real)
    requires Sorted(s) && x in multiset(s)
    ensures s[0] <= x
  {
    assert x in s;
    var i :| 0 <= i < |s| && s[i] == x;
  }

  /** A sorted sequence is determined by its elements: two sorted orderings of the same
      multiset are the same sequence. */
  lemma {:induction false} SortedUnique(a: seq<real>, b: seq<real>)
    requires Sorted(a) && Sorted(b)
    requires multiset(a) == multiset(b)
    ensures a == b
  {
    if a == [] {
      assert |multiset(b)| == 0;
    } else {
      assert |b| == |a| by { assert |multiset(b)| == |multiset(a)|; }
      HeadIsLeast(a, b[0]);
      HeadIsLeast(b, a[0]);
      TailsAgree(a, b);
      SortedUnique(a[1..], b[1..]);
      assert a == [a[0]] + a[1..] && b == [b[0]] + b[1..];
    }
  }

  lemma TailsAgree(a: seq<real>, b: seq<real>)
    requires |a| > 0 && |b| > 0 && a[0] == b[0] && multiset(a) == multiset(b)
    requires Sorted(a) && Sorted(b)
    ensures multiset(a[1..]) == multiset(b[1..])
    ensures Sorted(a[1..]) && Sorted(b[1..])
  {
    Multisets.SameTails(a, b);
  }

  /** The median depends only on the values, not on the order of the rows. */
  lemma MedianPermutationInvariant(xs: seq<real>, ys: seq<real>)
    requires |xs| > 0
    requires multiset(xs) == multiset(ys)
    ensures |ys| == |xs|
    ensures Median(xs) == Median(ys)
  {
    assert |ys| == |xs| by { assert |multiset(ys)| == |multiset(xs)|; }
    SortedUnique(Sort(xs), Sort(ys));
    assert Sort(xs) == Sort(ys);
  }

  /** At least half of the values lie at or below the median and at least half at or
      above it: in sorted order, every value in the lower half (the middle one
      included) is at most the median and every value from the middle on is at least
      the median. */
  lemma MedianSplits(xs: seq<real>)
    requires |xs| > 0
    ensures forall k :: 0 <= k < (|xs| + 1) / 2 ==> Sort(xs)[k] <= Median(xs)
    ensures forall k :: |xs| / 2 <= k < |xs| ==> Median(xs) <= Sort(xs)[k]
  {
    LowerHalfBelowMedian(xs);
    UpperHalfAboveMedian(xs);
  }

  lemma LowerHalfBelowMedian(xs: seq<real>)
    requires |xs| > 0
    ensures forall k :: 0 <= k < (|xs| + 1) / 2 ==> Sort(xs)[k] <= Median(xs)
  {
    var s := Sort(xs);
    var n := |s|;
    var last := (n + 1) / 2 - 1;
    assert s[last] <= Median(xs);
    forall k | 0 <= k <= last
      ensures s[k] <= Median(xs)
    {
      assert s[k] <= s[last];
    }
  }

  lemma UpperHalfAboveMedian(xs: seq<real>)
    requires |xs| > 0
    ensures forall k :: |xs| / 2 <= k < |xs| ==> Median(xs) <= Sort(xs)[k]
  {
    var s := Sort(xs);
    var n := |s|;
    assert Median(xs) <= s[n / 2];
    forall k | n / 2 <= k < n
      ensures Median(xs) <= s[k]
    {
      assert s[n / 2] <= s[k];
    }
  }

  /** On values already in order, the median is read off the middle position(s). */
  lemma MedianOfSorted(s: seq<real>)
    requires |s| > 0 && Sorted(s)
    ensures |s| % 2 == 1 ==> Median(s) == s[|s| / 2]
    ensures |s| % 2 == 0 ==> Median(s) == (s[|s| / 2 - 1] + s[|s| / 2]) / 2.0
  {
    SortedUnique(Sort(s), s);
  }
}
