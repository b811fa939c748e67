/** `sortObjectsByProperties` (sort_objects_by_properties.ts): sort records
    by an ordered list of properties, each ascending unless its position
    in `order` says `"desc"`.

    A property is a selector returning the property's value as `>` and `<`
    see it.  Every property the reports sort by is numeric, so a value is a
    `real`, or `None` for `NaN`/`undefined`, which is neither greater nor
    less than anything: the comparator then moves on to the next property,
    just as the source's two failed tests do.
 */
module SortObjects {

  import opened Options
  import Seqs
  import ArraySort

  datatype Direction = Asc | Desc

  /** A property value; `None` is `NaN` or `undefined`. */
  type Key = Option<real>

  /** The direction of property `i`: descending only when `order[i]` is
      present and `"desc"`, so a shorter `order` leaves the rest ascending. */
  function DirectionAt(order: seq<Direction>, i: nat): Direction {
    if i < |order| && order[i] == Desc then Desc else Asc
  }

  /** `x > y` on numbers; false whenever a side is `NaN`. */
  predicate Greater(x: Key, y: Key) {
    x.Some? && y.Some? && x.value > y.value
  }

  /** `x < y` on numbers; false whenever a side is `NaN`. */
  predicate Less(x: Key, y: Key) {
    x.Some? && y.Some? && x.value < y.value
  }

  /** Neither test succeeds, so the comparator consults the next property. */
  predicate Tie(x: Key, y: Key) {
    !Greater(x, y) && !Less(x, y)
  }

  /** The comparator's loop, started at property `i`: -1, 0 or 1, and 0
      once the properties run out. */
  function CompareFrom<T>(properties: seq<T -> Key>, order: seq<Direction>, i: nat, a: T, b: T): (c: int)
    ensures -1 <= c <= 1
    ensures i >= |properties| ==> c == 0
    decreases |properties| - i
  {
    if i >= |properties| then 0
    else
      var x, y := properties[i](a), properties[i](b);
      if Greater(x, y) then (if DirectionAt(order, i) == Asc then 1 else -1)
      else if Less(x, y) then (if DirectionAt(order, i) == Asc then -1 else 1)
      else CompareFrom(properties, order, i + 1, a, b)
  }

  /** The comparator passed to `objects.sort`. Two records compare equal
      exactly when they tie on every listed property, so with no properties
      everything compares equal. */
  function Compare<T>(properties: seq<T -> Key>, order: seq<Direction>, a: T, b: T): (c: int)
    ensures c in {-1, 0, 1}
    ensures c == 0 <==> forall k | 0 <= k < |properties| :: Tie(properties[k](a), properties[k](b))
  {
    CompareFromZeroIffTies(properties, order, 0, a, b);
    CompareFrom(properties, order, 0, a, b)
  }

  function Comparator<T>(properties: seq<T -> Key>, order: seq<Direction>): (T, T) -> int {
    (a: T, b: T) => Compare(properties, order, a, b)
  }

  /** The sorted records: a permutation of `objects` in which each record is
      ordered before its successor by the cascading comparator. */
  function SortObjectsByProperties<T(!new)>(objects: seq<T>, properties: seq<T -> Key>, order: seq<Direction>)
    : (sorted: seq<T>)
    ensures multiset(sorted) == multiset(objects)
    ensures |sorted| == |objects|
    ensures forall i | 0 <= i < |sorted| - 1 :: Compare(properties, order, sorted[i], sorted[i + 1]) <= 0
  {
    ComparatorAntisymmetric(properties, order);
    ArraySort.Sort(Comparator(properties, order), objects)
  }

  lemma {:induction false} CompareFromAntisymmetric<T>(
    properties: seq<T -> Key>, order: seq<Direction>, i: nat, a: T, b: T)
    ensures CompareFrom(properties, order, i, a, b) == -CompareFrom(properties, order, i, b, a)
    ensures -1 <= CompareFrom(properties, order, i, a, b) <= 1
    decreases |properties| - i
  {
    if i < |properties| {
      CompareFromAntisymmetric(properties, order, i + 1, a, b);
    }
  }

  /** Swapping the records negates the comparison, and a record ties with
      itself. */
  lemma CompareAntisymmetric<T>(properties: seq<T -> Key>, order: seq<Direction>, a: T, b: T)
    ensures Compare(properties, order, a, b) == -Compare(properties, order, b, a)
    ensures Compare(properties, order, a, a) == 0
    ensures Compare(properties, order, a, b) in {-1, 0, 1}
  {
    CompareFromAntisymmetric(properties, order, 0, a, b);
    CompareFromAntisymmetric(properties, order, 0, a, a);
  }

  lemma ComparatorAntisymmetric<T(!new)>(properties: seq<T -> Key>, order: seq<Direction>)
    ensures ArraySort.Antisymmetric(Comparator(properties, order))
  {
    forall a: T, b: T
      ensures Comparator(properties, order)(a, b) == -Comparator(properties, order)(b, a)
    {
      CompareAntisymmetric(properties, order, a, b);
    }
  }

  lemma {:induction false} CompareFromZeroIffTies<T>(
    properties: seq<T -> Key>, order: seq<Direction>, i: nat, a: T, b: T)
    ensures CompareFrom(properties, order, i, a, b) == 0
      <==> forall k | i <= k < |properties| :: Tie(properties[k](a), properties[k](b))
    decreases |properties| - i
  {
    if i < |properties| {
      CompareFromZeroIffTies(properties, order, i + 1, a, b);
    }
  }

  /** Properties on which the records tie are skipped. */
  lemma {:induction false} TiesAreSkipped<T>(
    properties: seq<T -> Key>, order: seq<Direction>, i: nat, k: nat, a: T, b: T)
    requires i <= k <= |properties|
    requires forall j | i <= j < k :: Tie(properties[j](a), properties[j](b))
    ensures CompareFrom(properties, order, i, a, b) == CompareFrom(properties, order, k, a, b)
    decreases k - i
  {
    if i < k {
      TiesAreSkipped(properties, order, i + 1, k, a, b);
    }
  }

  /** The first property on which the records do not tie decides the
      comparison, in that property's direction. */
  lemma FirstDifferenceDecides<T>(properties: seq<T -> Key>, order: seq<Direction>, k: nat, a: T, b: T)
    requires k < |properties|
    requires forall j | 0 <= j < k :: Tie(properties[j](a), properties[j](b))
    ensures var x, y, d := properties[k](a), properties[k](b), DirectionAt(order, k);
      && (Less(x, y) && d == Asc ==> Compare(properties, order, a, b) == -1)
      && (Less(x, y) && d == Desc ==> Compare(properties, order, a, b) == 1)
      && (Greater(x, y) && d == Asc ==> Compare(properties, order, a, b) == 1)
      && (Greater(x, y) && d == Desc ==> Compare(properties, order, a, b) == -1)
      && (Tie(x, y) ==> Compare(properties, order, a, b) == CompareFrom(properties, order, k + 1, a, b))
  {
    TiesAreSkipped(properties, order, 0, k, a, b);
  }

  /** What `Compare(a, b) <= 0` says about the first property on which the
      records do not tie: it does not put `b` first in its direction. */
  lemma OrderedOnFirstDifference<T>(properties: seq<T -> Key>, order: seq<Direction>, k: nat, a: T, b: T)
    requires k < |properties|
    requires forall j | 0 <= j < k :: Tie(properties[j](a), properties[j](b))
    requires Compare(properties, order, a, b) <= 0
    ensures DirectionAt(order, k) == Asc ==> !Greater(properties[k](a), properties[k](b))
    ensures DirectionAt(order, k) == Desc ==> !Less(properties[k](a), properties[k](b))
  {
    FirstDifferenceDecides(properties, order, k, a, b);
  }

  /** What `Compare(a, b) <= 0` says about the first two properties: `a`
      is not after `b` on the first one in its direction, and where they tie
      on it, not after `b` on the second one in its direction. */
  lemma LeadingPropertiesDecide<T>(properties: seq<T -> Key>, order: seq<Direction>, a: T, b: T)
    requires |properties| >= 2
    requires Compare(properties, order, a, b) <= 0
    ensures DirectionAt(order, 0) == Asc ==> !Greater(properties[0](a), properties[0](b))
    ensures DirectionAt(order, 0) == Desc ==> !Less(properties[0](a), properties[0](b))
    ensures Tie(properties[0](a), properties[0](b)) && DirectionAt(order, 1) == Asc
         ==> !Greater(properties[1](a), properties[1](b))
    ensures Tie(properties[0](a), properties[0](b)) && DirectionAt(order, 1) == Desc
         ==> !Less(properties[1](a), properties[1](b))
  {
    OrderedOnFirstDifference(properties, order, 0, a, b);
    if Tie(properties[0](a), properties[0](b)) {
      OrderedOnFirstDifference(properties, order, 1, a, b);
    }
  }

  /** The sorted records follow the first property in its direction, and
      runs that tie on it follow the second property in its direction. */
  lemma SortedOnLeadingProperties<T(!new)>(objects: seq<T>, properties: seq<T -> Key>, order: seq<Direction>)
    requires |properties| >= 2
    ensures var sorted := SortObjectsByProperties(objects, properties, order);
      forall i | 0 <= i < |sorted| - 1 ::
        var x0, y0 := properties[0](sorted[i]), properties[0](sorted[i + 1]);
        var x1, y1 := properties[1](sorted[i]), properties[1](sorted[i + 1]);
        && (DirectionAt(order, 0) == Asc ==> !Greater(x0, y0))
        && (DirectionAt(order, 0) == Desc ==> !Less(x0, y0))
        && (Tie(x0, y0) && DirectionAt(order, 1) == Asc ==> !Greater(x1, y1))
        && (Tie(x0, y0) && DirectionAt(order, 1) == Desc ==> !Less(x1, y1))
  {
    var sorted := SortObjectsByProperties(objects, properties, order);
    forall i | 0 <= i < |sorted| - 1 {
      LeadingPropertiesDecide(properties, order, sorted[i], sorted[i + 1]);
    }
  }

  /** Two direction lists that agree from position `i` on give the same
      comparison from `i` on. */
  lemma {:induction false} SameDirectionsAgree<T>(
    properties: seq<T -> Key>, order1: seq<Direction>, order2: seq<Direction>, i: nat, a: T, b: T)
    requires forall j | i <= j < |properties| :: DirectionAt(order1, j) == DirectionAt(order2, j)
    ensures CompareFrom(properties, order1, i, a, b) == CompareFrom(properties, order2, i, a, b)
    decreases |properties| - i
  {
    if i < |properties| {
      SameDirectionsAgree(properties, order1, order2, i + 1, a, b);
    }
  }

  /** Spelling out `"asc"` for positions the direction list leaves out
      changes nothing: missing directions default to ascending. */
  lemma MissingDirectionsAreAscending<T>(
    properties: seq<T -> Key>, order: seq<Direction>, padding: seq<Direction>, a: T, b: T)
    requires forall j | 0 <= j < |padding| :: padding[j] == Asc
    ensures Compare(properties, order + padding, a, b) == Compare(properties, order, a, b)
  {
    SameDirectionsAgree(properties, order + padding, order, 0, a, b);
  }

  function Flip(d: Direction): Direction {
    if d == Asc then Desc else Asc
  }

  lemma {:induction false} FlipFrom<T>(
    properties: seq<T -> Key>, order: seq<Direction>, k: nat, i: nat, a: T, b: T)
    requires i <= k < |order| && k < |properties|
    ensures var flipped := order[k := Flip(order[k])];
      var decidedAtK := (forall j | i <= j < k :: Tie(properties[j](a), properties[j](b)))
                        && !Tie(properties[k](a), properties[k](b));
      CompareFrom(properties, flipped, i, a, b)
        == if decidedAtK then -CompareFrom(properties, order, i, a, b) else CompareFrom(properties, order, i, a, b)
    decreases k - i
  {
    var flipped := order[k := Flip(order[k])];
    if i < k {
      FlipFrom(properties, order, k, i + 1, a, b);
    } else {
      SameDirectionsAgree(properties, flipped, order, k + 1, a, b);
    }
  }

  /** Reversing the direction of property `k` reverses the comparison only
      for records that property decides; all others compare as before. */
  lemma FlipOneDirection<T>(properties: seq<T -> Key>, order: seq<Direction>, k: nat, a: T, b: T)
    requires k < |order| && k < |properties|
    ensures var flipped := order[k := Flip(order[k])];
      var decidedAtK := (forall j | 0 <= j < k :: Tie(properties[j](a), properties[j](b)))
                        && !Tie(properties[k](a), properties[k](b));
      && (decidedAtK ==> Compare(properties, flipped, a, b) == -Compare(properties, order, a, b))
      && (!decidedAtK ==> Compare(properties, flipped, a, b) == Compare(properties, order, a, b))
  {
    FlipFrom(properties, order, k, 0, a, b);
  }

  /** Every listed property of `x` is a number. */
  ghost predicate Defined<T>(properties: seq<T -> Key>, x: T) {
    forall k | 0 <= k < |properties| :: properties[k](x).Some?
  }

  lemma {:induction false} CompareFromTransitive<T>(
    properties: seq<T -> Key>, order: seq<Direction>, i: nat, a: T, b: T, c: T)
    requires Defined(properties, a) && Defined(properties, b) && Defined(properties, c)
    requires CompareFrom(properties, order, i, a, b) <= 0
    requires CompareFrom(properties, order, i, b, c) <= 0
    ensures CompareFrom(properties, order, i, a, c) <= 0
    decreases |properties| - i
  {
    if i < |properties| {
      var x, y, z := properties[i](a), properties[i](b), properties[i](c);
      assert x.Some? && y.Some? && z.Some?;
      if x.value == y.value && y.value == z.value {
        CompareFromTransitive(properties, order, i + 1, a, b, c);
      }
    }
  }

  /** When every sort key is a number, the comparator is transitive and the
      sorted records are ordered pairwise, not only neighbour by neighbour. */
  lemma SortedPairwise<T(!new)>(objects: seq<T>, properties: seq<T -> Key>, order: seq<Direction>)
    requires forall i | 0 <= i < |objects| :: Defined(properties, objects[i])
    ensures var sorted := SortObjectsByProperties(objects, properties, order);
      forall i, j | 0 <= i < j < |sorted| :: Compare(properties, order, sorted[i], sorted[j]) <= 0
  {
    var sorted := SortObjectsByProperties(objects, properties, order);
    var cmp := Comparator(properties, order);
    forall i | 0 <= i < |sorted|
      ensures Defined(properties, sorted[i])
    {
      assert sorted[i] in multiset(objects);
    }
    forall i, j, k | 0 <= i < |sorted| && 0 <= j < |sorted| && 0 <= k < |sorted|
      ensures cmp(sorted[i], sorted[j]) <= 0 && cmp(sorted[j], sorted[k]) <= 0 ==> cmp(sorted[i], sorted[k]) <= 0
    {
      if cmp(sorted[i], sorted[j]) <= 0 && cmp(sorted[j], sorted[k]) <= 0 {
        CompareFromTransitive(properties, order, 0, sorted[i], sorted[j], sorted[k]);
      }
    }
    ArraySort.OrderedIsPairwise(cmp, sorted);
  }

  lemma {:induction false} CompareFromProjected<T, U>(
    properties: seq<T -> Key>, projected: seq<U -> Key>, order: seq<Direction>, project: T -> U,
    i: nat, a: T, b: T)
    requires |projected| == |properties|
    requires forall x: T, k | 0 <= k < |properties| :: projected[k](project(x)) == properties[k](x)
    ensures CompareFrom(projected, order, i, project(a), project(b)) == CompareFrom(properties, order, i, a, b)
    decreases |properties| - i
  {
    if i < |properties| {
      CompareFromProjected(properties, projected, order, project, i + 1, a, b);
    }
  }

  /** Projecting each record to a shape that keeps every sort key, after
      sorting, gives the same rows as sorting the projected rows. */
  lemma SortCommutesWithProjection<T(!new), U(!new)>(
    objects: seq<T>, properties: seq<T -> Key>, projected: seq<U -> Key>, order: seq<Direction>,
    project: T -> U)
    requires |projected| == |properties|
    requires forall x: T, k | 0 <= k < |properties| :: projected[k](project(x)) == properties[k](x)
    ensures Seqs.Map(project, SortObjectsByProperties(objects, properties, order))
         == SortObjectsByProperties(Seqs.Map(project, objects), projected, order)
  {
    var cmp, cmpU := Comparator(properties, order), Comparator(projected, order);
    forall a: T, b: T
      ensures cmpU(project(a), project(b)) == cmp(a, b)
    {
      CompareFromProjected(properties, projected, order, project, 0, a, b);
    }
    ArraySort.SortCommutesWithProjection(cmp, cmpU, project, objects);
  }

  /** A two-property record for a worked example. */
  datatype Point = Point(a: int, b: int)

  function PropA(p: Point): Key {
    Some(p.a as real)
  }

  function PropB(p: Point): Key {
    Some(p.b as real)
  }

  /** Sorting `[{a:2,b:1}, {a:1,b:2}, {a:1,b:1}]` by `a` then `b`, both
      ascending, gives `[{a:1,b:1}, {a:1,b:2}, {a:2,b:1}]`. */
  lemma SortExample()
    ensures SortObjectsByProperties([Point(2, 1), Point(1, 2), Point(1, 1)], [PropA, PropB], [])
         == [Point(1, 1), Point(1, 2), Point(2, 1)]
  {
    var props: seq<Point -> Key> := [PropA, PropB];
    var cmp := Comparator(props, []);
    assert props[0] == PropA && props[1] == PropB;
    assert cmp(Point(1, 2), Point(1, 1)) == 1 by {
      FirstDifferenceDecides(props, [], 1, Point(1, 2), Point(1, 1));
    }
    assert cmp(Point(2, 1), Point(1, 1)) == 1 by {
      FirstDifferenceDecides(props, [], 0, Point(2, 1), Point(1, 1));
    }
    assert cmp(Point(2, 1), Point(1, 2)) == 1 by {
      FirstDifferenceDecides(props, [], 0, Point(2, 1), Point(1, 2));
    }
    calc {
      ArraySort.Sort(cmp, [Point(2, 1), Point(1, 2), Point(1, 1)]);
      ArraySort.Insert(cmp, Point(2, 1), ArraySort.Sort(cmp, [Point(1, 2), Point(1, 1)]));
      { assert [Point(1, 2), Point(1, 1)][1..] == [Point(1, 1)];
        assert ArraySort.Sort(cmp, [Point(1, 1)]) == [Point(1, 1)]; }
      ArraySort.Insert(cmp, Point(2, 1), ArraySort.Insert(cmp, Point(1, 2), [Point(1, 1)]));
      ArraySort.Insert(cmp, Point(2, 1), [Point(1, 1), Point(1, 2)]);
      [Point(1, 1), Point(1, 2), Point(2, 1)];
    }
  }
}
