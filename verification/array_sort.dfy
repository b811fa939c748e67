/** `Array.prototype.sort(compareFn)`, the sort both `calcMedian` and
    `sortObjectsByProperties` delegate to.

    A comparator returns a negative number when its first argument belongs
    first, a positive one when it belongs second, and zero for a tie.  The
    host sort is stable; the model is a stable insertion sort: it returns
    a permutation of its input in which every element is ordered before
    its successor.  When the comparator is also transitive the result is
    ordered pairwise.
 */
module ArraySort {

  import Seqs

  /** A comparator that reverses its verdict when its arguments swap
      places (in the sign of the result). */
  ghost predicate Antisymmetric<T(!new)>(cmp: (T, T) -> int) {
    forall a, b :: cmp(a, b) > 0 ==> cmp(b, a) < 0
  }

  /** A comparator whose "belongs first or ties" relation is transitive on
      the values of `xs`. */
  ghost predicate TransitiveOn<T>(cmp: (T, T) -> int, xs: seq<T>) {
    forall i, j, k | 0 <= i < |xs| && 0 <= j < |xs| && 0 <= k < |xs| ::
      cmp(xs[i], xs[j]) <= 0 && cmp(xs[j], xs[k]) <= 0 ==> cmp(xs[i], xs[k]) <= 0
  }

  /** Each element is ordered before its successor. */
  predicate Ordered<T>(cmp: (T, T) -> int, xs: seq<T>) {
    forall i | 0 <= i < |xs| - 1 :: cmp(xs[i], xs[i + 1]) <= 0
  }

  /** Every element is ordered before every later one. */
  predicate OrderedPairwise<T>(cmp: (T, T) -> int, xs: seq<T>) {
    forall i, j | 0 <= i < j < |xs| :: cmp(xs[i], xs[j]) <= 0
  }

  /** Places `x` before the first element of `xs` it does not follow. */
  function Insert<T(!new)>(cmp: (T, T) -> int, x: T, xs: seq<T>): (ys: seq<T>)
    ensures multiset(ys) == multiset(xs) + multiset{x}
    ensures |ys| == |xs| + 1
    ensures ys[0] == x || (|xs| > 0 && ys[0] == xs[0])
  {
    if |xs| == 0 then [x]
    else if cmp(x, xs[0]) <= 0 then [x] + xs
    else
      assert xs == [xs[0]] + xs[1..];
      [xs[0]] + Insert(cmp, x, xs[1..])
  }

  /** Inserting into an ordered sequence keeps it ordered. */
  lemma {:induction false} InsertKeepsOrder<T(!new)>(cmp: (T, T) -> int, x: T, xs: seq<T>)
    ensures Antisymmetric(cmp) && Ordered(cmp, xs) ==> Ordered(cmp, Insert(cmp, x, xs))
  {
    if Antisymmetric(cmp) && Ordered(cmp, xs) && |xs| > 0 && cmp(x, xs[0]) > 0 {
      var rest := Insert(cmp, x, xs[1..]);
      InsertKeepsOrder(cmp, x, xs[1..]);
      assert Ordered(cmp, rest);
      assert cmp(xs[0], rest[0]) <= 0;
      var ys := [xs[0]] + rest;
      forall i | 0 <= i < |ys| - 1 ensures cmp(ys[i], ys[i + 1]) <= 0 {
        if i > 0 {
          assert ys[i] == rest[i - 1] && ys[i + 1] == rest[i];
        }
      }
    }
  }

  /** The sorted copy of `xs`. */
  function Sort<T(!new)>(cmp: (T, T) -> int, xs: seq<T>): (ys: seq<T>)
    ensures multiset(ys) == multiset(xs)
    ensures |ys| == |xs|
    ensures Antisymmetric(cmp) ==> Ordered(cmp, ys)
  {
    if |xs| == 0 then []
    else
      assert xs == [xs[0]] + xs[1..];
      InsertKeepsOrder(cmp, xs[0], Sort(cmp, xs[1..]));
      Insert(cmp, xs[0], Sort(cmp, xs[1..]))
  }

  /** With a transitive comparator, ordering successive elements orders
      every pair. */
  lemma {:induction false} OrderedIsPairwise<T>(cmp: (T, T) -> int, xs: seq<T>)
    requires Ordered(cmp, xs)
    requires TransitiveOn(cmp, xs)
    ensures OrderedPairwise(cmp, xs)
  {
    forall i, j | 0 <= i < j < |xs|
      ensures cmp(xs[i], xs[j]) <= 0
    {
      var k := i + 1;
      while k < j
        invariant i < k <= j
        invariant cmp(xs[i], xs[k]) <= 0
      {
        assert cmp(xs[k], xs[k + 1]) <= 0;
        k := k + 1;
      }
    }
  }

  /** Sorting commutes with a projection that keeps the comparator's
      verdicts: projecting the sorted sequence gives the sorted projection. */
  lemma {:induction false} SortCommutesWithProjection<T(!new), U(!new)>(
    cmp: (T, T) -> int, cmpU: (U, U) -> int, project: T -> U, xs: seq<T>)
    requires forall a, b :: cmpU(project(a), project(b)) == cmp(a, b)
    ensures Seqs.Map(project, Sort(cmp, xs)) == Sort(cmpU, Seqs.Map(project, xs))
  {
    if |xs| > 0 {
      var mapped := Seqs.Map(project, xs);
      assert mapped[1..] == Seqs.Map(project, xs[1..]);
      SortCommutesWithProjection(cmp, cmpU, project, xs[1..]);
      InsertCommutesWithProjection(cmp, cmpU, project, xs[0], Sort(cmp, xs[1..]));
    }
  }

  lemma {:induction false} InsertCommutesWithProjection<T(!new), U(!new)>(
    cmp: (T, T) -> int, cmpU: (U, U) -> int, project: T -> U, x: T, xs: seq<T>)
    requires forall a, b :: cmpU(project(a), project(b)) == cmp(a, b)
    ensures Seqs.Map(project, Insert(cmp, x, xs)) == Insert(cmpU, project(x), Seqs.Map(project, xs))
  {
    if |xs| > 0 && cmp(x, xs[0]) > 0 {
      var mapped := Seqs.Map(project, xs);
      assert mapped[1..] == Seqs.Map(project, xs[1..]);
      InsertCommutesWithProjection(cmp, cmpU, project, x, xs[1..]);
    }
  }
}
