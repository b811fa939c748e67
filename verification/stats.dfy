/** The aggregator of get_stats.ts (lines 10-160): the distinct models and
    difficulty levels of a run, a summary per model and per (model, level)
    pair, and the flattened list of per-level entries.

    Counts, totals and averages are exact: `real` averages and medians,
    with `None` where the source divides by a zero count or takes the
    median of nothing and so produces `NaN`.
 */
module Stats {

  import opened Options
  import opened Types
  import Seqs
  import CalcMedian
  import ParamsNum
  import Scoring

  function ModelOf(a: Attempt): string {
    a.model
  }

  function LevelOf(a: Attempt): int {
    a.difficultyLevel
  }

  function AbsoluteScoreOf(a: Attempt): int {
    a.absoluteScore
  }

  function RelativeScoreOf(a: Attempt): int {
    a.relativeScore
  }

  /** `records.filter((r) => key(r) === k)`, keeping the records' order. */
  function Having<K(==)>(records: seq<Attempt>, key: Attempt -> K, k: K): (group: seq<Attempt>)
    ensures |group| <= |records|
  {
    if |records| == 0 then []
    else (if key(records[0]) == k then [records[0]] else []) + Having(records[1..], key, k)
  }

  /** The group holds exactly the records with the key. */
  lemma {:induction false} HavingMembers<K>(records: seq<Attempt>, key: Attempt -> K, k: K)
    ensures forall i | 0 <= i < |Having(records, key, k)| ::
      key(Having(records, key, k)[i]) == k && Having(records, key, k)[i] in records
    ensures forall i | 0 <= i < |records| && key(records[i]) == k :: records[i] in Having(records, key, k)
  {
    if |records| > 0 {
      var rest := records[1..];
      HavingMembers(rest, key, k);
      var head := if key(records[0]) == k then [records[0]] else [];
      var group := Having(records, key, k);
      assert group == head + Having(rest, key, k);
      forall i | 0 <= i < |group| ensures key(group[i]) == k && group[i] in records {
        if i >= |head| {
          assert group[i] == Having(rest, key, k)[i - |head|];
          assert group[i] in rest;
        }
      }
      forall i | 0 <= i < |records| && key(records[i]) == k ensures records[i] in group {
        if i > 0 {
          assert records[i] == rest[i - 1];
        }
      }
    }
  }

  /** The group is `filter` with the predicate `(r) => key(r) === k`. */
  lemma {:induction false} HavingIsFilter<K>(records: seq<Attempt>, key: Attempt -> K, k: K)
    ensures Having(records, key, k) == Seqs.Filter(r => key(r) == k, records)
  {
    if |records| > 0 {
      HavingIsFilter(records[1..], key, k);
    }
  }

  /** A record is in the group of its own key. */
  lemma InOwnGroup<K>(records: seq<Attempt>, key: Attempt -> K, n: nat)
    requires n < |records|
    ensures records[n] in Having(records, key, key(records[n]))
  {
    HavingMembers(records, key, key(records[n]));
  }

  function ForModel(records: seq<Attempt>, model: string): seq<Attempt> {
    Having(records, ModelOf, model)
  }

  function ForLevel(records: seq<Attempt>, level: int): seq<Attempt> {
    Having(records, LevelOf, level)
  }

  /** The quantities the summaries add up over a group. */
  datatype Quantity =
    | Attempts | ValidJsonFormat | ValidSchema | ValidData | Successful
    | AbsoluteScore | RelativeScore | DurationOrZero

  predicate IsFlag(q: Quantity) {
    q in {ValidJsonFormat, ValidSchema, ValidData, Successful}
  }

  /** What one attempt contributes to a quantity: 1 per attempt, 1 per true
      flag (`filter(Boolean).length`), its score, or `duration ?? 0`. */
  function Amount(a: Attempt, q: Quantity): int {
    match q
    case Attempts => 1
    case ValidJsonFormat => if a.hasValidJsonFormat then 1 else 0
    case ValidSchema => if a.hasValidSchema then 1 else 0
    case ValidData => if a.hasValidData then 1 else 0
    case Successful => if a.isSuccessful then 1 else 0
    case AbsoluteScore => a.absoluteScore
    case RelativeScore => a.relativeScore
    case DurationOrZero => a.duration.GetOr(0)
  }

  /** The sum of a quantity over a group. */
  function Total(group: seq<Attempt>, q: Quantity): (t: int)
    ensures q == Attempts ==> t == |group|
    ensures IsFlag(q) ==> 0 <= t <= |group|
  {
    if |group| == 0 then 0 else Amount(group[0], q) + Total(group[1..], q)
  }

  lemma {:induction false} TotalAppend(xs: seq<Attempt>, ys: seq<Attempt>, q: Quantity)
    ensures Total(xs + ys, q) == Total(xs, q) + Total(ys, q)
  {
    if |xs| > 0 {
      assert (xs + ys)[1..] == xs[1..] + ys;
      TotalAppend(xs[1..], ys, q);
    } else {
      assert xs + ys == ys;
    }
  }

  /** `group.map((r) => r.duration).filter(Boolean)`: the durations that are
      present and non-zero. */
  function PresentDurations(group: seq<Attempt>): (ds: seq<int>)
    ensures |ds| <= |group|
    ensures forall i | 0 <= i < |ds| :: ds[i] != 0
    ensures forall i | 0 <= i < |group| && IsTruthy(group[i].duration) :: group[i].duration.value in ds
  {
    if |group| == 0 then []
    else
      var d := group[0].duration;
      var rest := PresentDurations(group[1..]);
      assert forall i | 1 <= i < |group| :: group[i] == group[1..][i - 1];
      (if IsTruthy(d) then [d.value] else []) + rest
  }

  /** Every kept duration is the duration of some record of the group. */
  lemma {:induction false} PresentDurationsComeFromGroup(group: seq<Attempt>)
    ensures forall d | d in PresentDurations(group) :: exists i | 0 <= i < |group| :: group[i].duration == Some(d)
  {
    if |group| > 0 {
      PresentDurationsComeFromGroup(group[1..]);
      forall d | d in PresentDurations(group) ensures exists i | 0 <= i < |group| :: group[i].duration == Some(d) {
        if d in PresentDurations(group[1..]) {
          var i :| 0 <= i < |group[1..]| && group[1..][i].duration == Some(d);
          assert group[i + 1].duration == Some(d);
        } else {
          assert group[0].duration == Some(d);
        }
      }
    }
  }

  /** `Boolean(d)` for a duration: present and non-zero. */
  predicate IsTruthy(d: Option<int>) {
    d.Some? && d.value != 0
  }

  function DurationOf(a: Attempt): Option<int> {
    a.duration
  }

  /** The number a kept duration carries. */
  function ValueOf(d: Option<int>): int {
    if d.Some? then d.value else 0
  }

  /** The present durations are literally `map(duration)` followed by
      `filter(Boolean)`, read back as numbers. */
  lemma {:induction false} PresentDurationsAreFiltered(group: seq<Attempt>)
    ensures PresentDurations(group) == Seqs.Map(ValueOf, Seqs.Filter(IsTruthy, Seqs.Map(DurationOf, group)))
  {
    if |group| > 0 {
      PresentDurationsAreFiltered(group[1..]);
      var found := Seqs.Map(DurationOf, group);
      assert found[1..] == Seqs.Map(DurationOf, group[1..]);
      var kept := Seqs.Filter(IsTruthy, found);
      var head := if IsTruthy(found[0]) then [found[0]] else [];
      assert kept == head + Seqs.Filter(IsTruthy, found[1..]);
      Seqs.MapAppend(ValueOf, head, Seqs.Filter(IsTruthy, found[1..]));
    }
  }

  /** Summing the non-zero durations gives the same total as summing every
      duration with `undefined` read as zero: the per-model and per-level
      totals agree. */
  lemma {:induction false} DurationTotalsAgree(group: seq<Attempt>)
    ensures Seqs.Sum(PresentDurations(group)) == Total(group, DurationOrZero)
  {
    if |group| > 0 {
      DurationTotalsAgree(group[1..]);
      var d := group[0].duration;
      var head := if IsTruthy(d) then [d.value] else [];
      Seqs.SumAppend(head, PresentDurations(group[1..]));
    }
  }

  /** `total / count`; `None` (`NaN`) for an empty group. */
  function Average(total: int, count: nat): (avg: Option<real>)
    ensures avg.Some? <==> count > 0
    ensures avg.Some? ==> avg.value * count as real == total as real
  {
    if count == 0 then None else Some(total as real / count as real)
  }

  /** A rate's average lies in [0, 1]. */
  lemma RateAverage(total: int, count: nat)
    requires 0 <= total <= count && count > 0
    ensures 0.0 <= Average(total, count).value <= 1.0
  {
    var avg := Average(total, count).value;
    assert avg * count as real == total as real;
    assert (1.0 - avg) * count as real == (count - total) as real;
  }

  /** `calcMedian(values)`; `None` (`NaN`) for no values. */
  function MedianOf(values: seq<int>): (m: Option<real>)
    ensures m.Some? <==> |values| > 0
  {
    if |values| == 0 then None else Some(CalcMedian.Median(values))
  }

  /** A median, when there is one, lies between the least and the greatest
      value. */
  lemma MedianOfBounds(values: seq<int>)
    ensures MedianOf(values).Some? ==> Seqs.Min(values) as real <= MedianOf(values).value <= Seqs.Max(values) as real
  {
    if |values| > 0 {
      var m := CalcMedian.Median(values);
    }
  }

  /** The statistics kept for a group of attempts (`DataEntry` without its
      identifying fields). */
  datatype Summary = Summary(
    count: nat,
    totalDuration: int,
    totalHasValidJsonFormat: int,
    totalHasValidSchema: int,
    totalHasValidData: int,
    totalAbsoluteScore: int,
    totalRelativeScore: int,
    totalIsSuccessful: int,
    averageDuration: Option<real>,
    averageHasValidJsonFormat: Option<real>,
    averageHasValidSchema: Option<real>,
    averageHasValidData: Option<real>,
    averageAbsoluteScore: Option<real>,
    averageRelativeScore: Option<real>,
    averageIsSuccessful: Option<real>,
    medianDuration: Option<real>,
    medianAbsoluteScore: Option<real>,
    medianRelativeScore: Option<real>)

  /** The summary field holding the total of a quantity. */
  function TotalOf(s: Summary, q: Quantity): int {
    match q
    case Attempts => s.count
    case ValidJsonFormat => s.totalHasValidJsonFormat
    case ValidSchema => s.totalHasValidSchema
    case ValidData => s.totalHasValidData
    case Successful => s.totalIsSuccessful
    case AbsoluteScore => s.totalAbsoluteScore
    case RelativeScore => s.totalRelativeScore
    case DurationOrZero => s.totalDuration
  }

  /** Each total is the group's sum of its quantity. */
  predicate TotalsOf(s: Summary, group: seq<Attempt>) {
    forall q :: TotalOf(s, q) == Total(group, q)
  }

  /** Every average except the JSON-format one is its total over the count
      (`None` for an empty group). */
  predicate AveragesBesidesJson(s: Summary) {
    && s.averageDuration == Average(s.totalDuration, s.count)
    && s.averageHasValidSchema == Average(s.totalHasValidSchema, s.count)
    && s.averageHasValidData == Average(s.totalHasValidData, s.count)
    && s.averageAbsoluteScore == Average(s.totalAbsoluteScore, s.count)
    && s.averageRelativeScore == Average(s.totalRelativeScore, s.count)
    && s.averageIsSuccessful == Average(s.totalIsSuccessful, s.count)
  }

  /** The medians: duration over the present, non-zero durations only, the
      scores over every attempt of the group. */
  predicate MediansOf(s: Summary, group: seq<Attempt>) {
    && s.medianDuration == MedianOf(PresentDurations(group))
    && s.medianAbsoluteScore == MedianOf(Seqs.Map(AbsoluteScoreOf, group))
    && s.medianRelativeScore == MedianOf(Seqs.Map(RelativeScoreOf, group))
  }

  /** The summary of one (model, level) group (get_stats.ts lines 104-149). */
  function LevelSummary(group: seq<Attempt>): (s: Summary)
    ensures s.count == |group|
    ensures TotalsOf(s, group)
    ensures AveragesBesidesJson(s)
    ensures s.averageHasValidJsonFormat == Average(s.totalHasValidJsonFormat, s.count)
    ensures MediansOf(s, group)
  {
    var count := |group|;
    var totalDuration := Total(group, DurationOrZero);
    var totalJson := Total(group, ValidJsonFormat);
    var totalSchema := Total(group, ValidSchema);
    var totalData := Total(group, ValidData);
    var totalAbsolute := Total(group, AbsoluteScore);
    var totalRelative := Total(group, RelativeScore);
    var totalSuccessful := Total(group, Successful);
    var s := Summary(
      count, totalDuration, totalJson, totalSchema, totalData, totalAbsolute, totalRelative, totalSuccessful,
      Average(totalDuration, count), Average(totalJson, count), Average(totalSchema, count),
      Average(totalData, count), Average(totalAbsolute, count), Average(totalRelative, count),
      Average(totalSuccessful, count),
      MedianOf(PresentDurations(group)),
      MedianOf(Seqs.Map(AbsoluteScoreOf, group)),
      MedianOf(Seqs.Map(RelativeScoreOf, group)));
    assert forall q :: TotalOf(s, q) == Total(group, q) by {
      forall q ensures TotalOf(s, q) == Total(group, q) {
        assert Total(group, Attempts) == count;
      }
    }
    s
  }

  /** The summary of one model's attempts as the source computes it (lines
      62-99): the duration total adds only the non-zero durations, and the
      JSON-format average is initialised to 0 and never assigned. */
  function ModelSummaryAsWritten(group: seq<Attempt>): (s: Summary)
    ensures s.count == |group|
    ensures TotalsOf(s, group)
    ensures AveragesBesidesJson(s)
    ensures s.averageHasValidJsonFormat == Some(0.0)
    ensures MediansOf(s, group)
  {
    var durationItems := PresentDurations(group);
    DurationTotalsAgree(group);
    var level := LevelSummary(group);
    var s := level.(totalDuration := Seqs.Sum(durationItems), averageHasValidJsonFormat := Some(0.0));
    assert forall q :: TotalOf(s, q) == TotalOf(level, q);
    s
  }

  /** The per-model summary with the JSON-format average computed like every
      other average; the rest of the model uses this one. */
  function ModelSummary(group: seq<Attempt>): (s: Summary)
    ensures s.count == |group|
    ensures TotalsOf(s, group)
    ensures AveragesBesidesJson(s)
    ensures s.averageHasValidJsonFormat == Average(s.totalHasValidJsonFormat, s.count)
    ensures MediansOf(s, group)
  {
    var written := ModelSummaryAsWritten(group);
    written.(averageHasValidJsonFormat := Average(written.totalHasValidJsonFormat, written.count))
  }

  /** A model with one attempt whose reply parsed as JSON gets a JSON-format
      average of 0 from the source, though its rate is 1. */
  lemma JsonAverageNeverAssigned(a: Attempt)
    requires a.hasValidJsonFormat
    ensures ModelSummaryAsWritten([a]).averageHasValidJsonFormat == Some(0.0)
    ensures ModelSummaryAsWritten([a]).totalHasValidJsonFormat == 1
    ensures ModelSummary([a]).averageHasValidJsonFormat == Some(1.0)
  {
    assert Total([a], ValidJsonFormat) == 1;
  }

  /** The correction changes nothing but the JSON-format average. */
  lemma CorrectionTouchesOnlyJsonAverage(group: seq<Attempt>)
    ensures ModelSummaryAsWritten(group) == ModelSummary(group).(averageHasValidJsonFormat := Some(0.0))
    ensures |group| > 0 ==> ModelSummary(group).averageHasValidJsonFormat.Some?
  {
    var written := ModelSummaryAsWritten(group);
    assert ModelSummary(group) == written.(averageHasValidJsonFormat := Average(written.totalHasValidJsonFormat, written.count));
  }

  /** Over well-formed attempts the flag totals are nested the way the
      checks are gated, successes are exactly the exact matches, and the
      score total is the 10/30/60 weighting of the flag totals. */
  lemma {:induction false} TotalsFollowTheCascade(group: seq<Attempt>)
    requires forall i | 0 <= i < |group| :: Scoring.WellFormed(group[i])
    ensures Total(group, Successful) == Total(group, ValidData)
    ensures Total(group, ValidData) <= Total(group, ValidSchema) <= Total(group, ValidJsonFormat) <= |group|
    ensures Total(group, AbsoluteScore)
         == 10 * Total(group, ValidJsonFormat) + 30 * Total(group, ValidSchema) + 60 * Total(group, ValidData)
    ensures 0 <= Total(group, AbsoluteScore) <= 100 * |group|
  {
    if |group| > 0 {
      TotalsFollowTheCascade(group[1..]);
    }
  }

  /** The same, read off a summary: every flag average lies in [0, 1], and
      the score medians lie within 0..100. */
  lemma SummaryFollowsTheCascade(group: seq<Attempt>)
    requires forall i | 0 <= i < |group| :: Scoring.WellFormed(group[i])
    ensures var s := LevelSummary(group);
      && s.totalIsSuccessful == s.totalHasValidData <= s.totalHasValidSchema <= s.totalHasValidJsonFormat <= s.count
      && s.totalAbsoluteScore == 10 * s.totalHasValidJsonFormat + 30 * s.totalHasValidSchema + 60 * s.totalHasValidData
      && (s.count > 0 ==> 0.0 <= s.averageHasValidSchema.value <= 1.0)
      && (s.medianAbsoluteScore.Some? ==> 0.0 <= s.medianAbsoluteScore.value <= 100.0)
  {
    var s := LevelSummary(group);
    TotalsFollowTheCascade(group);
    assert s.totalHasValidSchema == Total(group, ValidSchema);
    assert s.totalIsSuccessful == Total(group, Successful);
    assert s.totalHasValidData == Total(group, ValidData);
    assert s.totalHasValidJsonFormat == Total(group, ValidJsonFormat);
    assert s.totalAbsoluteScore == Total(group, AbsoluteScore);
    if s.count > 0 {
      RateAverage(s.totalHasValidSchema, s.count);
    }
    if |group| > 0 {
      var scores := Seqs.Map(AbsoluteScoreOf, group);
      forall i | 0 <= i < |scores| ensures 0 <= scores[i] <= 100 {
        Scoring.WellFormedScores(group[i]);
      }
      assert 0 <= Seqs.Min(scores) && Seqs.Max(scores) <= 100;
      MedianOfBounds(scores);
    }
  }

  // ---------------------------------------------------------------------
  // Partitioning a group by a key

  /** The sum of a quantity over the groups of `records` having each key. */
  function SumOverKeys<K(==)>(records: seq<Attempt>, key: Attempt -> K, keys: seq<K>, q: Quantity): int {
    if |keys| == 0 then 0
    else Total(Having(records, key, keys[0]), q) + SumOverKeys(records, key, keys[1..], q)
  }

  lemma {:induction false} NoRecordsSumToZero<K>(key: Attempt -> K, keys: seq<K>, q: Quantity)
    ensures SumOverKeys([], key, keys, q) == 0
  {
    if |keys| > 0 {
      NoRecordsSumToZero(key, keys[1..], q);
    }
  }

  lemma TailKeepsDistinct<T>(xs: seq<T>)
    requires |xs| > 0 && Seqs.NoDuplicates(xs)
    ensures Seqs.NoDuplicates(xs[1..]) && xs[0] !in xs[1..]
  {
    forall i, j | 0 <= i < j < |xs[1..]| ensures xs[1..][i] != xs[1..][j] {
      assert xs[1..][i] == xs[i + 1] && xs[1..][j] == xs[j + 1];
    }
    forall k | 0 <= k < |xs[1..]| ensures xs[1..][k] != xs[0] {
      assert xs[1..][k] == xs[k + 1];
    }
  }

  /** A record added to the front heads its own key's group and joins no
      other. */
  lemma HavingOfHead<K>(a: Attempt, rest: seq<Attempt>, key: Attempt -> K, k: K)
    ensures Having([a] + rest, key, k) == (if key(a) == k then [a] else []) + Having(rest, key, k)
  {
    assert ([a] + rest)[0] == a && ([a] + rest)[1..] == rest;
  }

  /** Adding one record to the front adds its amount to the group of its
      own key and to no other. */
  lemma GroupOfHead<K>(a: Attempt, rest: seq<Attempt>, key: Attempt -> K, k: K, q: Quantity)
    ensures Total(Having([a] + rest, key, k), q)
         == Total(Having(rest, key, k), q) + (if key(a) == k then Amount(a, q) else 0)
  {
    var head := if key(a) == k then [a] else [];
    HavingOfHead(a, rest, key, k);
    TotalAppend(head, Having(rest, key, k), q);
  }

  lemma HeadOrTail<T>(xs: seq<T>, x: T)
    requires |xs| > 0
    ensures x in xs <==> x == xs[0] || x in xs[1..]
  {
    assert xs == [xs[0]] + xs[1..];
  }

  /** Adding one record to the front adds its amount to exactly the group
      of its key, when each key occurs once. */
  lemma {:induction false} HeadCountsOnce<K>(a: Attempt, rest: seq<Attempt>, key: Attempt -> K, keys: seq<K>, q: Quantity)
    requires Seqs.NoDuplicates(keys)
    ensures SumOverKeys([a] + rest, key, keys, q)
         == SumOverKeys(rest, key, keys, q) + (if key(a) in keys then Amount(a, q) else 0)
  {
    if |keys| > 0 {
      GroupOfHead(a, rest, key, keys[0], q);
      TailKeepsDistinct(keys);
      HeadOrTail(keys, key(a));
      HeadCountsOnce(a, rest, key, keys[1..], q);
    }
  }

  /** Splitting records by a key that takes each value once, over keys that
      cover every record, loses and duplicates nothing: the groups' totals
      add up to the total of all records. */
  lemma {:induction false} PartitionTotals<K>(records: seq<Attempt>, key: Attempt -> K, keys: seq<K>, q: Quantity)
    requires Seqs.NoDuplicates(keys)
    requires forall i | 0 <= i < |records| :: key(records[i]) in keys
    ensures SumOverKeys(records, key, keys, q) == Total(records, q)
  {
    if |records| == 0 {
      NoRecordsSumToZero(key, keys, q);
    } else {
      var rest := records[1..];
      assert records == [records[0]] + rest;
      PartitionTotals(rest, key, keys, q);
      HeadCountsOnce(records[0], rest, key, keys, q);
    }
  }

  // ---------------------------------------------------------------------
  // Models, difficulty levels and the order of record keys

  /** `[...new Set(results.map((result) => result.model))]`. */
  function Models(records: seq<Attempt>): (models: seq<string>)
    ensures Seqs.NoDuplicates(models)
    ensures forall i | 0 <= i < |records| :: records[i].model in models
    ensures forall i | 0 <= i < |models| :: exists k | 0 <= k < |records| :: records[k].model == models[i]
    ensures forall i, j | 0 <= i < j < |models| :: Seqs.SeenBefore(Seqs.Map(ModelOf, records), models[i], models[j])
  {
    var names := Seqs.Map(ModelOf, records);
    var models := Seqs.Distinct(names);
    assert forall i | 0 <= i < |records| :: names[i] == records[i].model;
    models
  }

  /** `[...new Set(results.map((result) => result.difficultyLevel))]`
      sorted numerically: every level once, strictly ascending. */
  function DifficultyLevels(records: seq<Attempt>): (levels: seq<int>)
    ensures forall i, j | 0 <= i < j < |levels| :: levels[i] < levels[j]
    ensures CalcMedian.Ascending(levels) && Seqs.NoDuplicates(levels)
    ensures forall i | 0 <= i < |records| :: records[i].difficultyLevel in levels
    ensures forall l | l in levels :: exists k | 0 <= k < |records| :: records[k].difficultyLevel == l
  {
    var found := Seqs.Map(LevelOf, records);
    var distinct := Seqs.Distinct(found);
    var levels := CalcMedian.SortNumeric(distinct);
    LevelsFacts(records, found, distinct, levels);
    levels
  }

  lemma LevelsFacts(records: seq<Attempt>, found: seq<int>, distinct: seq<int>, levels: seq<int>)
    requires found == Seqs.Map(LevelOf, records) && distinct == Seqs.Distinct(found)
    requires multiset(levels) == multiset(distinct) && CalcMedian.Ascending(levels)
    ensures forall i, j | 0 <= i < j < |levels| :: levels[i] < levels[j]
    ensures Seqs.NoDuplicates(levels)
    ensures forall i | 0 <= i < |records| :: records[i].difficultyLevel in levels
    ensures forall l | l in levels :: exists k | 0 <= k < |records| :: records[k].difficultyLevel == l
  {
    Seqs.PermutationKeepsDistinct(distinct, levels);
    Seqs.SameMembers(distinct, levels);
    StrictlyAscending(levels);
    LevelsCoverRecords(records, found, levels);
    LevelsComeFromRecords(records, found, levels);
  }

  lemma StrictlyAscending(levels: seq<int>)
    requires CalcMedian.Ascending(levels) && Seqs.NoDuplicates(levels)
    ensures forall i, j | 0 <= i < j < |levels| :: levels[i] < levels[j]
  {
  }

  lemma LevelsCoverRecords(records: seq<Attempt>, found: seq<int>, levels: seq<int>)
    requires found == Seqs.Map(LevelOf, records)
    requires forall i | 0 <= i < |found| :: found[i] in levels
    ensures forall i | 0 <= i < |records| :: records[i].difficultyLevel in levels
  {
    forall i | 0 <= i < |records| ensures records[i].difficultyLevel in levels {
      assert found[i] == records[i].difficultyLevel;
    }
  }

  lemma LevelsComeFromRecords(records: seq<Attempt>, found: seq<int>, levels: seq<int>)
    requires found == Seqs.Map(LevelOf, records)
    requires forall l | l in levels :: l in found
    ensures forall l | l in levels :: exists k | 0 <= k < |records| :: records[k].difficultyLevel == l
  {
    forall l | l in levels ensures exists k | 0 <= k < |records| :: records[k].difficultyLevel == l {
      var k :| 0 <= k < |found| && found[k] == l;
      assert records[k].difficultyLevel == l;
    }
  }

  /** Integer keys that a JavaScript object lists first, in ascending
      order: the array indices 0 .. 2^32 - 2. */
  predicate IsArrayIndex(k: int) {
    0 <= k < 0xFFFF_FFFF
  }

  predicate IsNamedKey(k: int) {
    !IsArrayIndex(k)
  }

  /** The order in which `Object.values` lists a record whose integer keys
      were inserted in ascending order: array indices first, then the other
      keys in insertion order. */
  function RecordOrder(keys: seq<int>): (order: seq<int>)
    requires CalcMedian.Ascending(keys)
    ensures multiset(order) == multiset(keys)
    ensures |order| == |keys|
    ensures Seqs.NoDuplicates(keys) ==> Seqs.NoDuplicates(order)
    ensures (forall i | 0 <= i < |keys| :: IsArrayIndex(keys[i])) ==> order == keys
  {
    RecordOrderFacts(keys);
    Seqs.Filter(IsArrayIndex, keys) + Seqs.Filter(IsNamedKey, keys)
  }

  lemma RecordOrderFacts(keys: seq<int>)
    ensures var order := Seqs.Filter(IsArrayIndex, keys) + Seqs.Filter(IsNamedKey, keys);
      && multiset(order) == multiset(keys)
      && |order| == |keys|
      && (Seqs.NoDuplicates(keys) ==> Seqs.NoDuplicates(order))
      && ((forall i | 0 <= i < |keys| :: IsArrayIndex(keys[i])) ==> order == keys)
  {
    var indices := Seqs.Filter(IsArrayIndex, keys);
    var named := Seqs.Filter(IsNamedKey, keys);
    Seqs.FilterSplits(IsArrayIndex, IsNamedKey, keys);
    assert |multiset(indices + named)| == |indices + named|;
    assert |multiset(keys)| == |keys|;
    if Seqs.NoDuplicates(keys) {
      Seqs.FilterKeepsDistinct(IsArrayIndex, keys);
      Seqs.FilterKeepsDistinct(IsNamedKey, keys);
      Seqs.DisjointAppend(indices, named);
    }
    if forall i | 0 <= i < |keys| :: IsArrayIndex(keys[i]) {
      assert named == [];
      assert indices + named == indices;
    }
  }

  /** Levels keyed into a record are listed with the negative ones last. */
  lemma NegativeLevelsListedLast()
    ensures RecordOrder([-1, 0, 1]) == [0, 1, -1]
  {
    IndicesOfExample();
    NamedKeysOfExample();
  }

  lemma IndicesOfExample()
    ensures Seqs.Filter(IsArrayIndex, [-1, 0, 1]) == [0, 1]
  {
    var keys := [-1, 0, 1];
    assert keys[1..] == [0, 1] && keys[1..][1..] == [1] && keys[1..][1..][1..] == [];
    assert Seqs.Filter(IsArrayIndex, [1]) == [1];
    assert Seqs.Filter(IsArrayIndex, [0, 1]) == [0, 1];
  }

  lemma NamedKeysOfExample()
    ensures Seqs.Filter(IsNamedKey, [-1, 0, 1]) == [-1]
  {
    var keys := [-1, 0, 1];
    assert keys[1..] == [0, 1] && keys[1..][1..] == [1] && keys[1..][1..][1..] == [];
    assert Seqs.Filter(IsNamedKey, [1]) == [];
    assert Seqs.Filter(IsNamedKey, [0, 1]) == [];
  }

  // ---------------------------------------------------------------------
  // The nested entries

  /** The statistics of one model at one difficulty level. */
  datatype LevelEntry = LevelEntry(model: string, params: Option<real>, difficultyLevel: int, stats: Summary)

  /** The statistics of one model, with its per-level entries in the order
      `Object.values` lists them. */
  datatype ModelEntry = ModelEntry(model: string, params: Option<real>, stats: Summary, difficultyLevels: seq<LevelEntry>)

  /** The per-level entries of one model (get_stats.ts lines 101-152): one
      for every level of the run, including levels the model never ran. */
  function LevelEntries(modelResults: seq<Attempt>, model: string, params: Option<real>, levels: seq<int>): (es: seq<LevelEntry>)
    ensures |es| == |levels|
    ensures forall j | 0 <= j < |levels| ::
      es[j] == LevelEntry(model, params, levels[j], LevelSummary(ForLevel(modelResults, levels[j])))
  {
    seq(|levels|, j requires 0 <= j < |levels| =>
      LevelEntry(model, params, levels[j], LevelSummary(ForLevel(modelResults, levels[j]))))
  }

  /** The sum of a quantity's totals over a model's level entries. */
  function LevelEntriesTotal(es: seq<LevelEntry>, q: Quantity): int {
    if |es| == 0 then 0 else TotalOf(es[0].stats, q) + LevelEntriesTotal(es[1..], q)
  }

  /** Entries carrying the totals of the levels' groups add up to the sum
      over the levels' groups. */
  lemma {:induction false} LevelEntriesSumOverLevels(modelResults: seq<Attempt>, levels: seq<int>, es: seq<LevelEntry>, q: Quantity)
    requires |es| == |levels|
    requires forall j | 0 <= j < |es| :: TotalOf(es[j].stats, q) == Total(ForLevel(modelResults, levels[j]), q)
    ensures LevelEntriesTotal(es, q) == SumOverKeys(modelResults, LevelOf, levels, q)
  {
    if |levels| > 0 {
      assert forall j | 0 <= j < |es[1..]| :: es[1..][j] == es[j + 1] && levels[1..][j] == levels[j + 1];
      LevelEntriesSumOverLevels(modelResults, levels[1..], es[1..], q);
    }
  }

  /** `getParamsNumber(model)` as an entry stores it: a size that is not a
      number is kept as `None` (`NaN`).  A name without a colon never gets
      this far: the aggregation has already failed. */
  function StoredParams(model: string): (p: Option<real>)
    ensures p.Some? ==> p.value >= 0.0
    ensures p.Some? <==> ParamsNum.GetParamsNumber(model).Success?
  {
    match ParamsNum.GetParamsNumber(model)
    case Success(n) => Some(n)
    case Failure(_) => None
  }

  /** The entry of one model (lines 48-153). */
  function ModelEntryOf(records: seq<Attempt>, model: string, params: Option<real>, levels: seq<int>): (e: ModelEntry)
    requires CalcMedian.Ascending(levels)
    ensures e.model == model && e.params == params
    ensures |e.difficultyLevels| == |levels|
  {
    var modelResults := ForModel(records, model);
    ModelEntry(model, params, ModelSummary(modelResults),
               LevelEntries(modelResults, model, params, RecordOrder(levels)))
  }

  /** The model entries, in the order the models were first seen. */
  function ModelEntries(records: seq<Attempt>, models: seq<string>, levels: seq<int>): (es: seq<ModelEntry>)
    requires CalcMedian.Ascending(levels)
    ensures |es| == |models|
    ensures forall i | 0 <= i < |models| :: es[i] == ModelEntryOf(records, models[i], StoredParams(models[i]), levels)
  {
    seq(|models|, i requires 0 <= i < |models| => ModelEntryOf(records, models[i], StoredParams(models[i]), levels))
  }

  /** What the aggregation produces: the models, the sorted levels and
      `Object.values(data)`. */
  datatype Aggregation = Aggregation(models: seq<string>, difficultyLevels: seq<int>, data: seq<ModelEntry>)

  /** Lines 10-154. Computing the parameter counts of all models first
      (line 13) throws as soon as one model name has no colon, so the run
      yields nothing; otherwise every model gets an entry. */
  function Aggregate(records: seq<Attempt>): (r: Result<Aggregation, ParamsNum.ParamsError>)
    ensures r.Failure? <==> !NamesHaveColons(records)
    ensures r.Failure? ==> r.error == ParamsNum.MissingColon
    ensures r.Success? ==> r.value.models == Models(records) && r.value.difficultyLevels == DifficultyLevels(records)
    ensures r.Success? ==> forall i | 0 <= i < |r.value.models| :: ':' in r.value.models[i]
    ensures r.Success? ==> r.value.data == ModelEntries(records, r.value.models, r.value.difficultyLevels)
  {
    var models := Models(records);
    NamesWithoutColon(records, models);
    if !AllHaveColons(models) then
      Failure(ParamsNum.MissingColon)
    else
      var levels := DifficultyLevels(records);
      Success(Aggregation(models, levels, ModelEntries(records, models, levels)))
  }

  predicate AllHaveColons(models: seq<string>) {
    forall i | 0 <= i < |models| :: ':' in models[i]
  }

  /** Every record's model name has a colon, so line 13 does not throw and
      the run is aggregated. */
  predicate NamesHaveColons(records: seq<Attempt>) {
    forall k | 0 <= k < |records| :: ':' in records[k].model
  }

  lemma NamesWithoutColon(records: seq<Attempt>, models: seq<string>)
    requires models == Models(records)
    ensures AllHaveColons(models) <==> NamesHaveColons(records)
  {
    if !NamesHaveColons(records) {
      var k :| 0 <= k < |records| && ':' !in records[k].model;
      var i :| 0 <= i < |models| && models[i] == records[k].model;
    }
    if !AllHaveColons(models) {
      var i :| 0 <= i < |models| && ':' !in models[i];
      var k :| 0 <= k < |records| && records[k].model == models[i];
    }
  }

  /** The sum of a quantity's totals over the model entries. */
  function ModelEntriesTotal(es: seq<ModelEntry>, q: Quantity): int {
    if |es| == 0 then 0 else TotalOf(es[0].stats, q) + ModelEntriesTotal(es[1..], q)
  }

  /** Entries carrying the totals of the models' groups add up to the sum
      over the models' groups. */
  lemma {:induction false} ModelEntriesSumOverModels(records: seq<Attempt>, models: seq<string>, es: seq<ModelEntry>, q: Quantity)
    requires |es| == |models|
    requires forall i | 0 <= i < |es| :: TotalOf(es[i].stats, q) == Total(ForModel(records, models[i]), q)
    ensures ModelEntriesTotal(es, q) == SumOverKeys(records, ModelOf, models, q)
  {
    if |models| > 0 {
      assert forall i | 0 <= i < |es[1..]| :: es[1..][i] == es[i + 1] && models[1..][i] == models[i + 1];
      ModelEntriesSumOverModels(records, models[1..], es[1..], q);
    }
  }

  /** The model entries of a run carry the totals of the models' groups. */
  lemma EntriesCarryModelTotals(records: seq<Attempt>, q: Quantity)
    requires NamesHaveColons(records)
    ensures var agg := Aggregate(records).value;
      forall i | 0 <= i < |agg.data| :: TotalOf(agg.data[i].stats, q) == Total(ForModel(records, agg.models[i]), q)
  {
    var agg := Aggregate(records).value;
    forall i | 0 <= i < |agg.data| ensures TotalOf(agg.data[i].stats, q) == Total(ForModel(records, agg.models[i]), q) {
      var group := ForModel(records, agg.models[i]);
      assert agg.data[i].stats == ModelSummary(group);
    }
  }

  /** Every record is counted under exactly one model: each total summed
      over the model entries is the total over the whole run; in
      particular the counts add up to the number of records. */
  lemma ModelTotalsAddUp(records: seq<Attempt>, q: Quantity)
    requires NamesHaveColons(records)
    ensures ModelEntriesTotal(Aggregate(records).value.data, q) == Total(records, q)
    ensures ModelEntriesTotal(Aggregate(records).value.data, Attempts) == |records|
  {
    var agg := Aggregate(records).value;
    EntriesCarryModelTotals(records, q);
    ModelEntriesSumOverModels(records, agg.models, agg.data, q);
    PartitionTotals(records, ModelOf, agg.models, q);
    EntriesCarryModelTotals(records, Attempts);
    ModelEntriesSumOverModels(records, agg.models, agg.data, Attempts);
    PartitionTotals(records, ModelOf, agg.models, Attempts);
  }

  /** Every model of a run ran at least once, so none of its averages is
      `NaN`. */
  lemma ModelsAreNonEmpty(records: seq<Attempt>, i: nat)
    requires NamesHaveColons(records) && i < |Models(records)|
    ensures Aggregate(records).Success? && i < |Aggregate(records).value.data|
    ensures Aggregate(records).value.data[i].stats.count > 0
    ensures Aggregate(records).value.data[i].stats.averageAbsoluteScore.Some?
  {
    SeenModelHasRecords(records, i);
    EntryOfRun(records, i);
  }

  /** The entries carry the corrected summary. The source's own entry for
      the same model differs from it only in a JSON-format average of 0. */
  lemma EntryAsWritten(records: seq<Attempt>, i: nat)
    requires NamesHaveColons(records) && i < |Models(records)|
    ensures Aggregate(records).Success? && i < |Aggregate(records).value.data|
    ensures var e := Aggregate(records).value.data[i];
      e.stats.(averageHasValidJsonFormat := Some(0.0)) == ModelSummaryAsWritten(ForModel(records, e.model))
  {
    EntryOfRun(records, i);
    CorrectionTouchesOnlyJsonAverage(ForModel(records, Models(records)[i]));
  }

  lemma SeenModelHasRecords(records: seq<Attempt>, i: nat)
    requires i < |Models(records)|
    ensures |ForModel(records, Models(records)[i])| > 0
  {
    var k :| 0 <= k < |records| && records[k].model == Models(records)[i];
    InOwnGroup(records, ModelOf, k);
  }

  /** A model's totals are the sums of its per-level totals: the levels
      split the model's records without loss or overlap. */
  lemma LevelTotalsAddUp(records: seq<Attempt>, i: nat, q: Quantity)
    requires NamesHaveColons(records) && i < |Models(records)|
    ensures Aggregate(records).Success? && i < |Aggregate(records).value.data|
    ensures var entry := Aggregate(records).value.data[i];
      LevelEntriesTotal(entry.difficultyLevels, q) == TotalOf(entry.stats, q)
  {
    var model := Models(records)[i];
    EntryOfRun(records, i);
    EntryLevelsAddUp(records, model, StoredParams(model), DifficultyLevels(records), q);
  }

  lemma EntryLevelsAddUp(records: seq<Attempt>, model: string, params: Option<real>, levels: seq<int>, q: Quantity)
    requires CalcMedian.Ascending(levels) && Seqs.NoDuplicates(levels)
    requires forall n | 0 <= n < |records| :: records[n].difficultyLevel in levels
    ensures var entry := ModelEntryOf(records, model, params, levels);
      LevelEntriesTotal(entry.difficultyLevels, q) == TotalOf(entry.stats, q)
  {
    var modelResults := ForModel(records, model);
    var order := RecordOrder(levels);
    var es := LevelEntries(modelResults, model, params, order);
    forall j | 0 <= j < |es| ensures TotalOf(es[j].stats, q) == Total(ForLevel(modelResults, order[j]), q) {
      assert TotalsOf(es[j].stats, ForLevel(modelResults, order[j]));
    }
    LevelEntriesSumOverLevels(modelResults, order, es, q);
    LevelsOfModelCovered(records, model, levels);
    PartitionTotals(modelResults, LevelOf, order, q);
    assert TotalOf(ModelSummary(modelResults), q) == Total(modelResults, q);
  }

  lemma LevelsOfModelCovered(records: seq<Attempt>, model: string, levels: seq<int>)
    requires CalcMedian.Ascending(levels)
    requires forall n | 0 <= n < |records| :: records[n].difficultyLevel in levels
    ensures forall k | 0 <= k < |ForModel(records, model)| :: LevelOf(ForModel(records, model)[k]) in RecordOrder(levels)
  {
    var modelResults := ForModel(records, model);
    var order := RecordOrder(levels);
    HavingMembers(records, ModelOf, model);
    forall k | 0 <= k < |modelResults| ensures LevelOf(modelResults[k]) in order {
      var n :| 0 <= n < |records| && records[n] == modelResults[k];
      assert LevelOf(modelResults[k]) in multiset(levels);
    }
  }

  /** When every level is an array index (no negative level), each model's
      level entries follow the sorted levels. */
  lemma LevelEntriesFollowLevels(records: seq<Attempt>, i: nat, j: nat)
    requires NamesHaveColons(records) && i < |Models(records)|
    requires forall l | l in DifficultyLevels(records) :: IsArrayIndex(l)
    requires j < |DifficultyLevels(records)|
    ensures Aggregate(records).Success?
    ensures var agg := Aggregate(records).value;
      && i < |agg.data| && j < |agg.data[i].difficultyLevels| && j < |agg.difficultyLevels|
      && agg.data[i].difficultyLevels[j].difficultyLevel == agg.difficultyLevels[j]
  {
    var model := Models(records)[i];
    EntryOfRun(records, i);
    EntryLevelAt(records, model, StoredParams(model), DifficultyLevels(records), j);
  }

  /** The run's entry for its `i`-th model. */
  lemma EntryOfRun(records: seq<Attempt>, i: nat)
    requires NamesHaveColons(records) && i < |Models(records)|
    ensures Aggregate(records).Success?
    ensures var agg := Aggregate(records).value;
      && agg.models == Models(records) && agg.difficultyLevels == DifficultyLevels(records)
      && i < |agg.data|
      && agg.data[i] == ModelEntryOf(records, Models(records)[i], StoredParams(Models(records)[i]), DifficultyLevels(records))
  {
  }

  lemma EntryLevelAt(records: seq<Attempt>, model: string, params: Option<real>, levels: seq<int>, j: nat)
    requires CalcMedian.Ascending(levels) && j < |levels|
    requires forall l | l in levels :: IsArrayIndex(l)
    ensures ModelEntryOf(records, model, params, levels).difficultyLevels[j].difficultyLevel == levels[j]
  {
    assert RecordOrder(levels) == levels;
  }

  // ---------------------------------------------------------------------
  // The flat list of per-level entries

  /** `Object.values(data).reduce((acc, entry) => [...acc,
      ...Object.values(entry.difficultyLevels)], [])` (lines 157-160): every
      level entry of every model, and nothing else. */
  function ResultEntries(data: seq<ModelEntry>): (r: seq<LevelEntry>)
    ensures forall i | 0 <= i < |data| :: forall e | e in data[i].difficultyLevels :: e in r
    ensures forall e | e in r :: exists i | 0 <= i < |data| :: e in data[i].difficultyLevels
  {
    if |data| == 0 then []
    else
      var rest := ResultEntries(data[1..]);
      FlattenStep(data, rest);
      data[0].difficultyLevels + rest
  }

  lemma FlattenStep(data: seq<ModelEntry>, rest: seq<LevelEntry>)
    requires |data| > 0
    requires forall i | 0 <= i < |data[1..]| :: forall e | e in data[1..][i].difficultyLevels :: e in rest
    requires forall e | e in rest :: exists i | 0 <= i < |data[1..]| :: e in data[1..][i].difficultyLevels
    ensures var r := data[0].difficultyLevels + rest;
      && (forall i | 0 <= i < |data| :: forall e | e in data[i].difficultyLevels :: e in r)
      && (forall e | e in r :: exists i | 0 <= i < |data| :: e in data[i].difficultyLevels)
  {
    var r := data[0].difficultyLevels + rest;
    forall i | 1 <= i < |data| ensures data[i] == data[1..][i - 1] { }
    forall e | e in r ensures exists i | 0 <= i < |data| :: e in data[i].difficultyLevels {
      if e !in data[0].difficultyLevels {
        var i :| 0 <= i < |data[1..]| && e in data[1..][i].difficultyLevels;
        assert data[1..][i] == data[i + 1];
      }
    }
  }

  /** With the same number of levels per model, the flat list holds that
      many entries per model. */
  lemma {:induction false} ResultEntriesLength(data: seq<ModelEntry>, width: nat)
    requires forall i | 0 <= i < |data| :: |data[i].difficultyLevels| == width
    ensures |ResultEntries(data)| == |data| * width
  {
    if |data| > 0 {
      ResultEntriesLength(data[1..], width);
    }
  }

  /** For an aggregated run the flat list holds one entry per model and
      level. */
  lemma ResultEntriesOfRun(records: seq<Attempt>)
    requires NamesHaveColons(records)
    ensures var agg := Aggregate(records).value;
      |ResultEntries(agg.data)| == |agg.models| * |agg.difficultyLevels|
  {
    var agg := Aggregate(records).value;
    ResultEntriesLength(agg.data, |agg.difficultyLevels|);
  }

  /** The run's entries are those of its models, one each, in order. */
  lemma EntriesNameModels(records: seq<Attempt>)
    requires NamesHaveColons(records)
    ensures var agg := Aggregate(records).value;
      && |agg.data| == |agg.models|
      && (forall i | 0 <= i < |agg.data| :: agg.data[i].model == agg.models[i])
      && Seqs.NoDuplicates(agg.models)
  {
  }
}
