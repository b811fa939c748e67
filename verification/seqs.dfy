/** Sequence helpers shared by the statistics code: mapping, the
    insertion-ordered de-duplication of `[...new Set(xs)]`, sums and bounds.
 */
module Seqs {

  /** `xs.map(f)`. */
  function Map<T, U>(f: T -> U, xs: seq<T>): (ys: seq<U>)
    ensures |ys| == |xs|
    ensures forall i | 0 <= i < |xs| :: ys[i] == f(xs[i])
  {
    if |xs| == 0 then [] else [f(xs[0])] + Map(f, xs[1..])
  }

  /** Mapping distributes over concatenation. */
  lemma MapAppend<T, U>(f: T -> U, xs: seq<T>, ys: seq<T>)
    ensures Map(f, xs + ys) == Map(f, xs) + Map(f, ys)
  {
    var l, r := Map(f, xs + ys), Map(f, xs) + Map(f, ys);
    assert |l| == |r|;
    forall i | 0 <= i < |l| ensures l[i] == r[i] {
      if i < |xs| {
        assert (xs + ys)[i] == xs[i];
      } else {
        assert (xs + ys)[i] == ys[i - |xs|];
      }
    }
    assert l == r;
  }

  lemma MapAppendMultiset<T, U>(f: T -> U, xs: seq<T>, ys: seq<T>)
    ensures multiset(Map(f, xs + ys)) == multiset(Map(f, xs)) + multiset(Map(f, ys))
  {
    MapAppend(f, xs, ys);
  }

  lemma SplitAt<T>(ys: seq<T>, j: nat)
    requires j < |ys|
    ensures ys == (ys[..j] + [ys[j]]) + ys[j + 1..]
  {
  }

  lemma MapSingleton<T, U>(f: T -> U, y: T)
    ensures multiset(Map(f, [y])) == multiset{f(y)}
  {
    assert Map(f, [y]) == [f(y)];
  }

  /** Mapping a sequence with one element taken out maps every other
      element. */
  lemma MapWithout<T, U>(f: T -> U, ys: seq<T>, j: nat)
    requires j < |ys|
    ensures multiset(Map(f, ys)) == multiset(Map(f, ys[..j] + ys[j + 1..])) + multiset{f(ys[j])}
  {
    var a, b, y := ys[..j], ys[j + 1..], ys[j];
    SplitAt(ys, j);
    MapAppendMultiset(f, a + [y], b);
    MapAppendMultiset(f, a, [y]);
    MapAppendMultiset(f, a, b);
    MapSingleton(f, y);
  }

  /** Taking one element out of a sequence takes it out of its multiset. */
  lemma MultisetWithout<T>(ys: seq<T>, j: nat)
    requires j < |ys|
    ensures multiset(ys) == multiset(ys[..j] + ys[j + 1..]) + multiset{ys[j]}
  {
    assert ys == (ys[..j] + [ys[j]]) + ys[j + 1..];
  }

  lemma Cancel<T>(a: multiset<T>, b: multiset<T>, x: T)
    requires a + multiset{x} == b + multiset{x}
    ensures a == b
  {
    assert a == (a + multiset{x}) - multiset{x};
  }

  /** Mapping two rearrangements of the same elements gives two
      rearrangements of the same images. */
  lemma {:induction false} MapOfPermutation<T, U>(f: T -> U, xs: seq<T>, ys: seq<T>)
    requires multiset(xs) == multiset(ys)
    ensures multiset(Map(f, xs)) == multiset(Map(f, ys))
    decreases |xs|
  {
    if |xs| == 0 {
      assert |ys| == |multiset(ys)| == 0;
    } else {
      var x := xs[0];
      var j := IndexOf(ys, x);
      var rest := ys[..j] + ys[j + 1..];
      MultisetWithout(ys, j);
      MultisetOfHead(xs);
      Cancel(multiset(xs[1..]), multiset(rest), x);
      MapOfPermutation(f, xs[1..], rest);
      MapWithout(f, ys, j);
      MapOfHead(f, xs);
    }
  }

  /** The position of an element of a sequence. */
  lemma IndexOf<T>(ys: seq<T>, x: T) returns (j: nat)
    requires x in multiset(ys)
    ensures j < |ys| && ys[j] == x
  {
    j :| 0 <= j < |ys| && ys[j] == x;
  }

  lemma MultisetOfHead<T>(xs: seq<T>)
    requires |xs| > 0
    ensures multiset(xs) == multiset(xs[1..]) + multiset{xs[0]}
  {
    assert xs == [xs[0]] + xs[1..];
  }

  lemma MapOfHead<T, U>(f: T -> U, xs: seq<T>)
    requires |xs| > 0
    ensures multiset(Map(f, xs)) == multiset(Map(f, xs[1..])) + multiset{f(xs[0])}
  {
    assert Map(f, xs) == [f(xs[0])] + Map(f, xs[1..]);
  }

  predicate NoDuplicates<T(==)>(xs: seq<T>) {
    forall i, j | 0 <= i < j < |xs| :: xs[i] != xs[j]
  }

  /** A value repeated in a sequence occurs there at least twice. */
  lemma RepeatedMultiplicity<T>(xs: seq<T>, i: nat, j: nat)
    requires i < j < |xs| && xs[i] == xs[j]
    ensures multiset(xs)[xs[i]] >= 2
  {
    assert xs == xs[..j] + xs[j..];
    assert xs[i] == xs[..j][i];
    assert xs[j] == xs[j..][0];
  }

  /** A sequence without duplicates holds each value at most once. */
  lemma {:induction false} DistinctMultiplicity<T>(xs: seq<T>, x: T)
    requires NoDuplicates(xs)
    ensures multiset(xs)[x] <= 1
  {
    if |xs| > 0 {
      assert xs == [xs[0]] + xs[1..];
      assert NoDuplicates(xs[1..]) by {
        forall i, j | 0 <= i < j < |xs[1..]| ensures xs[1..][i] != xs[1..][j] {
          assert xs[1..][i] == xs[i + 1] && xs[1..][j] == xs[j + 1];
        }
      }
      DistinctMultiplicity(xs[1..], x);
      if x == xs[0] {
        assert x !in xs[1..] by {
          forall k | 0 <= k < |xs[1..]| ensures xs[1..][k] != x {
            assert xs[1..][k] == xs[k + 1];
          }
        }
      }
    }
  }

  /** Reordering a sequence keeps it free of duplicates. */
  lemma PermutationKeepsDistinct<T>(xs: seq<T>, ys: seq<T>)
    requires multiset(xs) == multiset(ys) && NoDuplicates(xs)
    ensures NoDuplicates(ys)
  {
    forall i, j | 0 <= i < j < |ys| ensures ys[i] != ys[j] {
      if ys[i] == ys[j] {
        RepeatedMultiplicity(ys, i, j);
        DistinctMultiplicity(xs, ys[i]);
        assert false;
      }
    }
  }

  /** Sequences holding the same values as multisets hold the same values. */
  lemma SameMembers<T>(xs: seq<T>, ys: seq<T>)
    requires multiset(xs) == multiset(ys)
    ensures forall x | x in xs :: x in ys
    ensures forall y | y in ys :: y in xs
  {
    forall x | x in xs ensures x in ys {
      assert x in multiset(xs);
    }
    forall y | y in ys ensures y in xs {
      assert y in multiset(ys);
    }
  }

  /** Joining two duplicate-free sequences with no value in common keeps
      them free of duplicates. */
  lemma DisjointAppend<T>(xs: seq<T>, ys: seq<T>)
    requires NoDuplicates(xs) && NoDuplicates(ys)
    requires forall x | x in xs :: x !in ys
    ensures NoDuplicates(xs + ys)
  {
    forall i, j | 0 <= i < j < |xs + ys| ensures (xs + ys)[i] != (xs + ys)[j] {
      if j < |xs| {
        assert (xs + ys)[i] == xs[i] && (xs + ys)[j] == xs[j];
      } else if i < |xs| {
        assert (xs + ys)[i] == xs[i] && (xs + ys)[j] == ys[j - |xs|];
        assert xs[i] in xs;
      } else {
        assert (xs + ys)[i] == ys[i - |xs|] && (xs + ys)[j] == ys[j - |xs|];
      }
    }
  }

  /** `xs.filter(p)`. */
  function Filter<T>(p: T -> bool, xs: seq<T>): (ys: seq<T>)
    ensures |ys| <= |xs|
    ensures forall y | y in ys :: y in xs && p(y)
    ensures forall i | 0 <= i < |xs| && p(xs[i]) :: xs[i] in ys
    ensures (forall i | 0 <= i < |xs| :: p(xs[i])) ==> ys == xs
  {
    if |xs| == 0 then [] else (if p(xs[0]) then [xs[0]] else []) + Filter(p, xs[1..])
  }

  lemma {:induction false} FilterKeepsDistinct<T>(p: T -> bool, xs: seq<T>)
    requires NoDuplicates(xs)
    ensures NoDuplicates(Filter(p, xs))
  {
    if |xs| > 0 {
      assert NoDuplicates(xs[1..]) by {
        forall i, j | 0 <= i < j < |xs[1..]| ensures xs[1..][i] != xs[1..][j] {
          assert xs[1..][i] == xs[i + 1] && xs[1..][j] == xs[j + 1];
        }
      }
      FilterKeepsDistinct(p, xs[1..]);
      assert xs[0] !in xs[1..] by {
        forall k | 0 <= k < |xs[1..]| ensures xs[1..][k] != xs[0] {
          assert xs[1..][k] == xs[k + 1];
        }
      }
      var head := if p(xs[0]) then [xs[0]] else [];
      DisjointAppend(head, Filter(p, xs[1..]));
    }
  }

  /** Filtering by a predicate and by its negation splits a sequence's
      values between the two. */
  lemma {:induction false} FilterSplits<T>(p: T -> bool, q: T -> bool, xs: seq<T>)
    requires forall i | 0 <= i < |xs| :: q(xs[i]) == !p(xs[i])
    ensures multiset(Filter(p, xs)) + multiset(Filter(q, xs)) == multiset(xs)
  {
    if |xs| > 0 {
      FilterSplits(p, q, xs[1..]);
      MultisetOfHead(xs);
      FilterOfHead(p, xs);
      FilterOfHead(q, xs);
    }
  }

  lemma FilterOfHead<T>(p: T -> bool, xs: seq<T>)
    requires |xs| > 0
    ensures multiset(Filter(p, xs))
         == multiset(Filter(p, xs[1..])) + if p(xs[0]) then multiset{xs[0]} else multiset{}
  {
  }

  /** Every occurrence of `later` in `xs` is preceded by an occurrence of
      `earlier`: `earlier` was seen first. */
  predicate SeenBefore<T(==)>(xs: seq<T>, earlier: T, later: T) {
    forall k | 0 <= k < |xs| && xs[k] == later :: earlier in xs[..k]
  }

  /** `[...new Set(xs)]`: the distinct values of `xs`, each at the position
      where a `Set` first received it. */
  function Distinct<T(==)>(xs: seq<T>): (ds: seq<T>)
    ensures forall i | 0 <= i < |xs| :: xs[i] in ds
    ensures forall i | 0 <= i < |ds| :: ds[i] in xs
    ensures NoDuplicates(ds)
    ensures forall i, j | 0 <= i < j < |ds| :: SeenBefore(xs, ds[i], ds[j])
  {
    if |xs| == 0 then []
    else
      var init := xs[..|xs| - 1];
      var last := xs[|xs| - 1];
      var prev := Distinct(init);
      assert xs == init + [last];
      assert forall k | 0 <= k < |init| :: xs[..k] == init[..k];
      if last in prev then prev else prev + [last]
  }

  /** A new value joins the distinct values at the end. */
  lemma DistinctOfNew<T>(xs: seq<T>, x: T)
    requires x !in Distinct(xs)
    ensures Distinct(xs + [x]) == Distinct(xs) + [x]
  {
    assert (xs + [x])[..|xs|] == xs;
  }

  /** A value seen before leaves the distinct values unchanged. */
  lemma DistinctOfSeen<T>(xs: seq<T>, x: T)
    requires x in Distinct(xs)
    ensures Distinct(xs + [x]) == Distinct(xs)
  {
    assert (xs + [x])[..|xs|] == xs;
  }

  /** `xs.reduce((acc, x) => acc + x, 0)`. */
  function Sum(xs: seq<int>): int {
    if |xs| == 0 then 0 else xs[0] + Sum(xs[1..])
  }

  lemma {:induction false} SumAppend(xs: seq<int>, ys: seq<int>)
    ensures Sum(xs + ys) == Sum(xs) + Sum(ys)
  {
    if |xs| > 0 {
      assert (xs + ys)[1..] == xs[1..] + ys;
      SumAppend(xs[1..], ys);
    } else {
      assert xs + ys == ys;
    }
  }

  function Min(xs: seq<int>): (m: int)
    requires |xs| > 0
    ensures m in xs
    ensures forall x | x in xs :: m <= x
  {
    if |xs| == 1 then xs[0]
    else
      var rest := Min(xs[1..]);
      assert xs == [xs[0]] + xs[1..];
      if xs[0] <= rest then xs[0] else rest
  }

  function Max(xs: seq<int>): (m: int)
    requires |xs| > 0
    ensures m in xs
    ensures forall x | x in xs :: x <= m
  {
    if |xs| == 1 then xs[0]
    else
      var rest := Max(xs[1..]);
      assert xs == [xs[0]] + xs[1..];
      if xs[0] >= rest then xs[0] else rest
  }
}
