/** `calcMedian` (calc_median.ts): sort numerically, then take the middle
    element, or the mean of the two middle elements for an even count.

    The source reads undefined elements for an empty input and returns
    `NaN`; here the input must be non-empty and callers that may pass an
    empty sequence go through `Stats.MedianOf`, which yields `None`.
 */
module CalcMedian {

  import opened Seqs
  import ArraySort

  /** The comparator `(a, b) => a - b`. */
  function NumericCompare(a: int, b: int): int {
    a - b
  }

  predicate Ascending(xs: seq<int>) {
    forall i, j | 0 <= i < j < |xs| :: xs[i] <= xs[j]
  }

  lemma NumericCompareAntisymmetric()
    ensures ArraySort.Antisymmetric(NumericCompare)
  {
  }

  /** `data.sort((a, b) => a - b)`: an ascending permutation of `data`. */
  function SortNumeric(data: seq<int>): (sorted: seq<int>)
    ensures multiset(sorted) == multiset(data)
    ensures |sorted| == |data|
    ensures Ascending(sorted)
  {
    var sorted := ArraySort.Sort(NumericCompare, data);
    NumericCompareAntisymmetric();
    ArraySort.OrderedIsPairwise(NumericCompare, sorted);
    sorted
  }

  function Median(data: seq<int>): (m: real)
    requires |data| > 0
    ensures Min(data) as real <= m <= Max(data) as real
  {
    var sorted := SortNumeric(data);
    InData(data, sorted, (|sorted| - 1) / 2);
    InData(data, sorted, |sorted| / 2);
    Middle(sorted)
  }

  /** The middle element of a sorted sequence of odd length, or the mean of
      the two middle elements of one of even length. */
  function Middle(sorted: seq<int>): (m: real)
    requires |sorted| > 0
    ensures Ascending(sorted) ==> sorted[(|sorted| - 1) / 2] as real <= m <= sorted[|sorted| / 2] as real
  {
    var n := |sorted|;
    if n % 2 == 0 then (sorted[n / 2 - 1] + sorted[n / 2]) as real / 2.0
    else sorted[n / 2] as real
  }

  /** An element of a permutation of `data` lies within `data`'s bounds. */
  lemma InData(data: seq<int>, sorted: seq<int>, i: int)
    requires |data| > 0
    requires multiset(sorted) == multiset(data)
    requires 0 <= i < |sorted|
    ensures sorted[i] in data
    ensures Min(data) <= sorted[i] <= Max(data)
  {
    assert sorted[i] in multiset(sorted);
  }

  /** Two ascending sequences holding the same values are the same
      sequence: the numeric sort has only one possible outcome. */
  lemma {:induction false} AscendingUnique(xs: seq<int>, ys: seq<int>)
    requires Ascending(xs) && Ascending(ys)
    requires multiset(xs) == multiset(ys)
    ensures xs == ys
  {
    assert |ys| == |xs| by {
      assert |multiset(ys)| == |multiset(xs)|;
    }
    if |xs| > 0 {
      HeadIsLeast(xs, ys[0]);
      HeadIsLeast(ys, xs[0]);
      SameTails(xs, ys);
      AscendingTail(xs);
      AscendingTail(ys);
      AscendingUnique(xs[1..], ys[1..]);
      assert xs == [xs[0]] + xs[1..];
      assert ys == [ys[0]] + ys[1..];
    }
  }

  lemma AscendingTail(xs: seq<int>)
    requires |xs| > 0 && Ascending(xs)
    ensures Ascending(xs[1..])
  {
    forall i, j | 0 <= i < j < |xs| - 1
      ensures xs[1..][i] <= xs[1..][j]
    {
      assert xs[1..][i] == xs[i + 1] && xs[1..][j] == xs[j + 1];
    }
  }

  /** Sequences with the same values and the same head have tails with the
      same values. */
  lemma SameTails(xs: seq<int>, ys: seq<int>)
    requires |xs| > 0 && |ys| > 0 && xs[0] == ys[0]
    requires multiset(xs) == multiset(ys)
    ensures multiset(xs[1..]) == multiset(ys[1..])
  {
    var x := xs[0];
    assert xs == [x] + xs[1..] && ys == [x] + ys[1..];
    calc {
      multiset(xs[1..]);
      multiset([x] + xs[1..]) - multiset{x};
      multiset(xs) - multiset{x};
      multiset(ys) - multiset{x};
      multiset([x] + ys[1..]) - multiset{x};
      multiset(ys[1..]);
    }
  }

  /** The first element of an ascending sequence is its least value. */
  lemma HeadIsLeast(xs: seq<int>, v: int)
    requires Ascending(xs)
    requires v in multiset(xs)
    ensures xs[0] <= v
  {
    var i :| 0 <= i < |xs| && xs[i] == v;
    assert i == 0 || xs[0] <= xs[i];
  }

  /** The median depends only on the values, not on their order. */
  lemma MedianPermutationInvariant(xs: seq<int>, ys: seq<int>)
    requires |xs| > 0
    requires multiset(xs) == multiset(ys)
    ensures |ys| > 0
    ensures Median(xs) == Median(ys)
  {
    assert |ys| == |xs| by {
      assert |multiset(ys)| == |multiset(xs)|;
    }
    var sx, sy := SortNumeric(xs), SortNumeric(ys);
    AscendingUnique(sx, sy);
    assert Median(xs) == Middle(sx) && Median(ys) == Middle(sy);
  }

  function Reverse(xs: seq<int>): (r: seq<int>)
    ensures |r| == |xs|
    ensures forall i | 0 <= i < |xs| :: r[i] == xs[|xs| - 1 - i]
  {
    if |xs| == 0 then [] else Reverse(xs[1..]) + [xs[0]]
  }

  lemma {:induction false} ReversePreservesValues(xs: seq<int>)
    ensures multiset(Reverse(xs)) == multiset(xs)
  {
    if |xs| > 0 {
      assert xs == [xs[0]] + xs[1..];
      ReversePreservesValues(xs[1..]);
    }
  }

  /** `median(seq) == median(reverse(seq))`. */
  lemma MedianOfReverse(xs: seq<int>)
    requires |xs| > 0
    ensures Median(Reverse(xs)) == Median(xs)
  {
    ReversePreservesValues(xs);
    MedianPermutationInvariant(xs, Reverse(xs));
  }

  /** For an odd count the median is the middle element of the sorted input,
      hence one of the input values. */
  lemma MedianOddIsMiddleElement(xs: seq<int>)
    requires |xs| % 2 == 1
    ensures Median(xs) == SortNumeric(xs)[|xs| / 2] as real
    ensures exists i | 0 <= i < |xs| :: Median(xs) == xs[i] as real
  {
    var sorted := SortNumeric(xs);
    assert sorted[|xs| / 2] in multiset(xs);
    var i :| 0 <= i < |xs| && xs[i] == sorted[|xs| / 2];
  }

  /** For an even count the median is the mean of the two middle elements of
      the sorted input, and so lies between them. */
  lemma MedianEvenIsMeanOfMiddle(xs: seq<int>)
    requires |xs| > 0 && |xs| % 2 == 0
    ensures var sorted := SortNumeric(xs);
      && Median(xs) == (sorted[|xs| / 2 - 1] + sorted[|xs| / 2]) as real / 2.0
      && sorted[|xs| / 2 - 1] as real <= Median(xs) <= sorted[|xs| / 2] as real
  {
  }

  /** `data` sorts to `sorted` when `sorted` is an ascending arrangement of
      the same values. */
  lemma SortsTo(data: seq<int>, sorted: seq<int>)
    requires Ascending(sorted)
    requires multiset(sorted) == multiset(data)
    ensures SortNumeric(data) == sorted
  {
    AscendingUnique(SortNumeric(data), sorted);
  }

  lemma MedianExampleOdd()
    ensures Median([3, 1, 2]) == 2.0
  {
    assert multiset([1, 2, 3]) == multiset([3, 1, 2]);
    SortsTo([3, 1, 2], [1, 2, 3]);
  }

  lemma MedianExampleEven()
    ensures Median([1, 2, 3, 4]) == 2.5
  {
    SortsTo([1, 2, 3, 4], [1, 2, 3, 4]);
  }
}
