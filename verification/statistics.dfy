/** Distribution statistics over session lengths: `calculate_median` in
    focus_analyzer.py. (The Shannon entropy of the same file needs `log2` and is
    not part of this model.) */
module Statistics {

  /** Every element is at most every later element. */
  predicate Ascending(s: seq<real>) {
    forall i, j :: 0 <= i < j < |s| ==> s[i] <= s[j]
  }

  /** Inserts `x` into an ascending sequence, keeping it ascending. */
  function InsertAscending(xs: seq<real>, x: real): (r: seq<real>)
    requires Ascending(xs)
    ensures Ascending(r)
    ensures multiset(r) == multiset(xs) + multiset{x}
    ensures |r| == |xs| + 1
  {
    if xs == [] || x <= xs[0] then
      [x] + xs
    else
      var rest := InsertAscending(xs[1..], x);
      LowerBoundKept(xs, x, rest);
      assert xs == [xs[0]] + xs[1..];
      [xs[0]] + rest
  }

  /** The head of an ascending sequence that is below `x` stays below everything
      produced by inserting `x` into the tail. */
  lemma LowerBoundKept(xs: seq<real>, x: real, rest: seq<real>)
    requires Ascending(xs) && xs != [] && xs[0] < x
    requires Ascending(rest)
    requires multiset(rest) == multiset(xs[1..]) + multiset{x}
    ensures Ascending([xs[0]] + rest)
  {
    forall k | 0 <= k < |rest|
      ensures xs[0] <= rest[k]
    {
      assert rest[k] in multiset(rest);
      if rest[k] != x {
        assert rest[k] in multiset(xs[1..]);
        assert rest[k] in xs[1..];
      }
    }
  }

  /** Python's `sorted` on numbers (an insertion sort; stability does not matter
      for equal numbers). */
  function SortAscending(s: seq<real>): (r: seq<real>)
    ensures Ascending(r)
    ensures multiset(r) == multiset(s)
    ensures |r| == |s|
  {
    if s == [] then []
    else
      assert s == [s[0]] + s[1..];
      InsertAscending(SortAscending(s[1..]), s[0])
  }

  /** Two ascending sequences with the same elements are equal: sorting has one
      possible outcome. */
  lemma {:induction false} AscendingUnique(a: seq<real>, b: seq<real>)
    requires Ascending(a) && Ascending(b)
    requires multiset(a) == multiset(b)
    ensures a == b
  {
    if a != [] {
      assert |b| == |a| by {
        assert |multiset(a)| == |a| && |multiset(b)| == |b|;
      }
      assert a[0] in multiset(b);
      assert a[0] in b;
      assert b[0] in multiset(a);
      assert b[0] in a;
      assert a[0] == b[0];
      assert a == [a[0]] + a[1..];
      assert b == [b[0]] + b[1..];
      assert multiset(a[1..]) == multiset(a) - multiset{a[0]};
      assert multiset(b[1..]) == multiset(b) - multiset{b[0]};
      AscendingUnique(a[1..], b[1..]);
    }
  }

  /** Sorting an ascending sequence changes nothing. */
  lemma SortOfAscending(s: seq<real>)
    requires Ascending(s)
    ensures SortAscending(s) == s
  {
    AscendingUnique(SortAscending(s), s);
  }

  /** `calculate_median`: 0 for no values, the middle of the sorted values for an
      odd count, the mean of the two middle ones for an even count. The result
      lies between the least and the greatest value. */
  function Median(values: seq<real>): (m: real)
    ensures values == [] ==> m == 0.0
  {
    if values == [] then 0.0
    else
      var s := SortAscending(values);
      var mid := |s| / 2;
      if |s| % 2 == 0 then (s[mid - 1] + s[mid]) / 2.0 else s[mid]
  }

  /** The median of a non-empty list lies between its least and greatest value. */
  lemma MedianBetweenExtremes(values: seq<real>)
    requires values != []
    ensures exists i :: 0 <= i < |values| && values[i] <= Median(values)
    ensures exists j :: 0 <= j < |values| && Median(values) <= values[j]
  {
    var s := SortAscending(values);
    var n := |s|;
    assert s[0] in multiset(values) && s[n - 1] in multiset(values);
    assert s[0] in values && s[n - 1] in values;
    assert s[0] <= Median(values) <= s[n - 1];
  }

  /** The median depends only on which values there are, not on their order. */
  lemma MedianOrderIndependent(a: seq<real>, b: seq<real>)
    requires multiset(a) == multiset(b)
    ensures Median(a) == Median(b)
  {
    AscendingUnique(SortAscending(a), SortAscending(b));
    if a == [] {
      assert |b| == |multiset(b)| == 0;
    }
  }

  /** For ascending values the median is read off the middle position(s). */
  lemma MedianOfAscending(s: seq<real>)
    requires Ascending(s) && s != []
    ensures |s| % 2 == 1 ==> Median(s) == s[|s| / 2]
    ensures |s| % 2 == 0 ==> Median(s) == (s[|s| / 2 - 1] + s[|s| / 2]) / 2.0
  {
    SortOfAscending(s);
  }

  /** The median of 1, 2, 3 is 2. */
  lemma MedianOddExample()
    ensures Median([1.0, 2.0, 3.0]) == 2.0
  {
    MedianOfAscending([1.0, 2.0, 3.0]);
  }

  /** The median of 1, 2, 3, 4 is 2.5, the mean of the two middle values. */
  lemma MedianEvenExample()
    ensures Median([1.0, 2.0, 3.0, 4.0]) == 2.5
  {
    var s := [1.0, 2.0, 3.0, 4.0];
    assert Ascending(s) by {
      forall i, j | 0 <= i < j < |s| ensures s[i] <= s[j] {
        assert s[i] == (i + 1) as real && s[j] == (j + 1) as real;
      }
    }
    MedianOfAscending(s);
  }
}
