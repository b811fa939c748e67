/** The six tables `get_stats.ts` writes out (lines 166-330): the model
    entries, or the flat list of level entries, sorted by
    `sortObjectsByProperties` on three or four keys and cut down to rows of
    model, score, parameter count, median duration and, for the per-level
    tables, difficulty level.  Writing the rows to CSV files is left out.
 */
module Reports {

  import opened Options
  import Seqs
  import SortObjects
  import Stats
  import Types
  import ParamsNum

  type Key = SortObjects.Key

  /** A row of the per-model tables: `{ model, score, params, duration }`. */
  datatype ModelRow = ModelRow(model: string, score: int, params: Option<real>, duration: Option<real>)

  /** A row of the per-level tables, which also carry the difficulty level. */
  datatype LevelRow =
    LevelRow(model: string, score: int, params: Option<real>, duration: Option<real>, difficultyLevel: int)

  function ModelRowOf(e: Stats.ModelEntry): ModelRow {
    ModelRow(e.model, e.stats.totalRelativeScore, e.params, e.stats.medianDuration)
  }

  function LevelRowOf(e: Stats.LevelEntry): LevelRow {
    LevelRow(e.model, e.stats.totalRelativeScore, e.params, e.stats.medianDuration, e.difficultyLevel)
  }

  // ---------------------------------------------------------------------
  // Sort keys: `totalRelativeScore`, `params`, `medianDuration` and
  // `difficultyLevel`, read off an entry and off the row made from it

  function EntryScore(e: Stats.ModelEntry): Key { Some(e.stats.totalRelativeScore as real) }
  function EntryParams(e: Stats.ModelEntry): Key { e.params }
  function EntryDuration(e: Stats.ModelEntry): Key { e.stats.medianDuration }

  function LevelEntryScore(e: Stats.LevelEntry): Key { Some(e.stats.totalRelativeScore as real) }
  function LevelEntryParams(e: Stats.LevelEntry): Key { e.params }
  function LevelEntryDuration(e: Stats.LevelEntry): Key { e.stats.medianDuration }
  function LevelEntryLevel(e: Stats.LevelEntry): Key { Some(e.difficultyLevel as real) }

  function RowScore(r: ModelRow): Key { Some(r.score as real) }
  function RowParams(r: ModelRow): Key { r.params }
  function RowDuration(r: ModelRow): Key { r.duration }

  function LevelRowScore(r: LevelRow): Key { Some(r.score as real) }
  function LevelRowParams(r: LevelRow): Key { r.params }
  function LevelRowDuration(r: LevelRow): Key { r.duration }
  function LevelRowLevel(r: LevelRow): Key { Some(r.difficultyLevel as real) }

  // ---------------------------------------------------------------------
  // Sorting entries, then keeping their rows

  /** `sortObjectsByProperties(entries, properties, order).map(toRow)`. */
  function Table<T(!new), U>(
    entries: seq<T>, properties: seq<T -> Key>, order: seq<SortObjects.Direction>, toRow: T -> U): seq<U>
  {
    Seqs.Map(toRow, SortObjects.SortObjectsByProperties(entries, properties, order))
  }

  /** Row `a` is not after row `b` on the first key, in its direction, and
      where they tie on that, not after it on the second, ascending. */
  predicate LeadingKeysInOrder<U>(keys: seq<U -> Key>, order: seq<SortObjects.Direction>, a: U, b: U)
    requires |keys| >= 2
  {
    var x0, y0, x1, y1 := keys[0](a), keys[0](b), keys[1](a), keys[1](b);
    && (SortObjects.DirectionAt(order, 0) == SortObjects.Asc ==> !SortObjects.Greater(x0, y0))
    && (SortObjects.DirectionAt(order, 0) == SortObjects.Desc ==> !SortObjects.Less(x0, y0))
    && (SortObjects.Tie(x0, y0) && SortObjects.DirectionAt(order, 1) == SortObjects.Asc ==>
          !SortObjects.Greater(x1, y1))
  }

  /** When every sort key survives into the row, sorting the entries and
      then keeping their rows gives the rows of the entries, rearranged,
      in the order of the first key and, where that ties, of the second. */
  lemma TableOrdered<T(!new), U(!new)>(
    entries: seq<T>, properties: seq<T -> Key>, order: seq<SortObjects.Direction>, toRow: T -> U,
    rowProperties: seq<U -> Key>)
    requires |rowProperties| == |properties| >= 2
    requires forall e: T, k | 0 <= k < |properties| :: rowProperties[k](toRow(e)) == properties[k](e)
    ensures var rows := Table(entries, properties, order, toRow);
      && multiset(rows) == multiset(Seqs.Map(toRow, entries))
      && forall i | 0 <= i < |rows| - 1 :: LeadingKeysInOrder(rowProperties, order, rows[i], rows[i + 1])
  {
    SortObjects.SortCommutesWithProjection(entries, properties, rowProperties, order, toRow);
    SortObjects.SortedOnLeadingProperties(Seqs.Map(toRow, entries), rowProperties, order);
  }

  // ---------------------------------------------------------------------
  // The six tables.  Each is a rearrangement of the entries' rows, in the
  // order of its first key and, where rows tie on that, of its second.
  // For each, the entry keys it sorts by, the same keys read off a row, and
  // the lemma reading the order of the first two keys as row fields.

  const ScoreParamsDuration: seq<Stats.ModelEntry -> Key> := [EntryScore, EntryParams, EntryDuration]
  const RowsScoreParamsDuration: seq<ModelRow -> Key> := [RowScore, RowParams, RowDuration]

  /** Lines 166-175: the models by total relative score, highest first, then
      by parameter count and median duration, smallest first. */
  function PerformanceScoresAcrossModels(data: seq<Stats.ModelEntry>): (rows: seq<ModelRow>)
    ensures multiset(rows) == multiset(Seqs.Map(ModelRowOf, data))
    ensures forall i | 0 <= i < |rows| - 1 :: rows[i].score >= rows[i + 1].score
    ensures forall i | 0 <= i < |rows| - 1 && rows[i].score == rows[i + 1].score ::
      !SortObjects.Greater(rows[i].params, rows[i + 1].params)
  {
    var rows := Table(data, ScoreParamsDuration, [SortObjects.Desc], ModelRowOf);
    KeysOfScoreParamsDuration();
    TableOrdered(data, ScoreParamsDuration, [SortObjects.Desc], ModelRowOf, RowsScoreParamsDuration);
    ByScoreThenParams(RowsScoreParamsDuration, [SortObjects.Desc], rows);
    rows
  }

  lemma KeysOfScoreParamsDuration()
    ensures forall e: Stats.ModelEntry, k | 0 <= k < |ScoreParamsDuration| ::
      RowsScoreParamsDuration[k](ModelRowOf(e)) == ScoreParamsDuration[k](e)
  {
    forall e: Stats.ModelEntry, k | 0 <= k < |ScoreParamsDuration|
      ensures RowsScoreParamsDuration[k](ModelRowOf(e)) == ScoreParamsDuration[k](e)
    {
    }
  }

  lemma ByScoreThenParams(
    keys: seq<ModelRow -> Key>, order: seq<SortObjects.Direction>, rows: seq<ModelRow>)
    requires |keys| >= 2 && keys[0] == RowScore && keys[1] == RowParams
    requires order == [SortObjects.Desc]
    requires forall i | 0 <= i < |rows| - 1 ::
      LeadingKeysInOrder(keys, order, rows[i], rows[i + 1])
    ensures forall i | 0 <= i < |rows| - 1 :: rows[i].score >= rows[i + 1].score
    ensures forall i | 0 <= i < |rows| - 1 && rows[i].score == rows[i + 1].score ::
      !SortObjects.Greater(rows[i].params, rows[i + 1].params)
  {
  }

  const ParamsScoreDuration: seq<Stats.ModelEntry -> Key> := [EntryParams, EntryScore, EntryDuration]
  const RowsParamsScoreDuration: seq<ModelRow -> Key> := [RowParams, RowScore, RowDuration]

  /** Lines 212-221: the models by parameter count, then total relative
      score, then median duration, all ascending. */
  function ModelPerformanceVsParameterCount(data: seq<Stats.ModelEntry>): (rows: seq<ModelRow>)
    ensures multiset(rows) == multiset(Seqs.Map(ModelRowOf, data))
    ensures forall i | 0 <= i < |rows| - 1 :: !SortObjects.Greater(rows[i].params, rows[i + 1].params)
    ensures forall i | 0 <= i < |rows| - 1 && SortObjects.Tie(rows[i].params, rows[i + 1].params) ::
      rows[i].score <= rows[i + 1].score
  {
    var rows := Table(data, ParamsScoreDuration, [], ModelRowOf);
    KeysOfParamsScoreDuration();
    TableOrdered(data, ParamsScoreDuration, [], ModelRowOf, RowsParamsScoreDuration);
    ByParamsThenScore(RowsParamsScoreDuration, [], rows);
    rows
  }

  lemma KeysOfParamsScoreDuration()
    ensures forall e: Stats.ModelEntry, k | 0 <= k < |ParamsScoreDuration| ::
      RowsParamsScoreDuration[k](ModelRowOf(e)) == ParamsScoreDuration[k](e)
  {
    forall e: Stats.ModelEntry, k | 0 <= k < |ParamsScoreDuration|
      ensures RowsParamsScoreDuration[k](ModelRowOf(e)) == ParamsScoreDuration[k](e)
    {
    }
  }

  lemma ByParamsThenScore(
    keys: seq<ModelRow -> Key>, order: seq<SortObjects.Direction>, rows: seq<ModelRow>)
    requires |keys| >= 2 && keys[0] == RowParams && keys[1] == RowScore
    requires order == []
    requires forall i | 0 <= i < |rows| - 1 ::
      LeadingKeysInOrder(keys, order, rows[i], rows[i + 1])
    ensures forall i | 0 <= i < |rows| - 1 :: !SortObjects.Greater(rows[i].params, rows[i + 1].params)
    ensures forall i | 0 <= i < |rows| - 1 && SortObjects.Tie(rows[i].params, rows[i + 1].params) ::
      rows[i].score <= rows[i + 1].score
  {
  }

  const ParamsDurationScore: seq<Stats.ModelEntry -> Key> := [EntryParams, EntryDuration, EntryScore]
  const RowsParamsDurationScore: seq<ModelRow -> Key> := [RowParams, RowDuration, RowScore]

  /** Lines 230-239: the models by parameter count, then median duration,
      then total relative score, all ascending. */
  function ModelResponseTimeVsParameterCount(data: seq<Stats.ModelEntry>): (rows: seq<ModelRow>)
    ensures multiset(rows) == multiset(Seqs.Map(ModelRowOf, data))
    ensures forall i | 0 <= i < |rows| - 1 :: !SortObjects.Greater(rows[i].params, rows[i + 1].params)
    ensures forall i | 0 <= i < |rows| - 1 && SortObjects.Tie(rows[i].params, rows[i + 1].params) ::
      !SortObjects.Greater(rows[i].duration, rows[i + 1].duration)
  {
    var rows := Table(data, ParamsDurationScore, [], ModelRowOf);
    KeysOfParamsDurationScore();
    TableOrdered(data, ParamsDurationScore, [], ModelRowOf, RowsParamsDurationScore);
    ByParamsThenDuration(RowsParamsDurationScore, [], rows);
    rows
  }

  lemma KeysOfParamsDurationScore()
    ensures forall e: Stats.ModelEntry, k | 0 <= k < |ParamsDurationScore| ::
      RowsParamsDurationScore[k](ModelRowOf(e)) == ParamsDurationScore[k](e)
  {
    forall e: Stats.ModelEntry, k | 0 <= k < |ParamsDurationScore|
      ensures RowsParamsDurationScore[k](ModelRowOf(e)) == ParamsDurationScore[k](e)
    {
    }
  }

  lemma ByParamsThenDuration(
    keys: seq<ModelRow -> Key>, order: seq<SortObjects.Direction>, rows: seq<ModelRow>)
    requires |keys| >= 2 && keys[0] == RowParams && keys[1] == RowDuration
    requires order == []
    requires forall i | 0 <= i < |rows| - 1 ::
      LeadingKeysInOrder(keys, order, rows[i], rows[i + 1])
    ensures forall i | 0 <= i < |rows| - 1 :: !SortObjects.Greater(rows[i].params, rows[i + 1].params)
    ensures forall i | 0 <= i < |rows| - 1 && SortObjects.Tie(rows[i].params, rows[i + 1].params) ::
      !SortObjects.Greater(rows[i].duration, rows[i + 1].duration)
  {
  }

  const DurationScoreParams: seq<Stats.ModelEntry -> Key> := [EntryDuration, EntryScore, EntryParams]
  const RowsDurationScoreParams: seq<ModelRow -> Key> := [RowDuration, RowScore, RowParams]

  /** Lines 248-257: the models by median duration, then total relative
      score, then parameter count, all ascending. */
  function ModelPerformanceVsResponseTime(data: seq<Stats.ModelEntry>): (rows: seq<ModelRow>)
    ensures multiset(rows) == multiset(Seqs.Map(ModelRowOf, data))
    ensures forall i | 0 <= i < |rows| - 1 :: !SortObjects.Greater(rows[i].duration, rows[i + 1].duration)
    ensures forall i | 0 <= i < |rows| - 1 && SortObjects.Tie(rows[i].duration, rows[i + 1].duration) ::
      rows[i].score <= rows[i + 1].score
  {
    var rows := Table(data, DurationScoreParams, [], ModelRowOf);
    KeysOfDurationScoreParams();
    TableOrdered(data, DurationScoreParams, [], ModelRowOf, RowsDurationScoreParams);
    ByDurationThenScore(RowsDurationScoreParams, [], rows);
    rows
  }

  lemma KeysOfDurationScoreParams()
    ensures forall e: Stats.ModelEntry, k | 0 <= k < |DurationScoreParams| ::
      RowsDurationScoreParams[k](ModelRowOf(e)) == DurationScoreParams[k](e)
  {
    forall e: Stats.ModelEntry, k | 0 <= k < |DurationScoreParams|
      ensures RowsDurationScoreParams[k](ModelRowOf(e)) == DurationScoreParams[k](e)
    {
    }
  }

  lemma ByDurationThenScore(
    keys: seq<ModelRow -> Key>, order: seq<SortObjects.Direction>, rows: seq<ModelRow>)
    requires |keys| >= 2 && keys[0] == RowDuration && keys[1] == RowScore
    requires order == []
    requires forall i | 0 <= i < |rows| - 1 ::
      LeadingKeysInOrder(keys, order, rows[i], rows[i + 1])
    ensures forall i | 0 <= i < |rows| - 1 :: !SortObjects.Greater(rows[i].duration, rows[i + 1].duration)
    ensures forall i | 0 <= i < |rows| - 1 && SortObjects.Tie(rows[i].duration, rows[i + 1].duration) ::
      rows[i].score <= rows[i + 1].score
  {
  }

  const ParamsScoreLevelDuration: seq<Stats.LevelEntry -> Key> :=
    [LevelEntryParams, LevelEntryScore, LevelEntryLevel, LevelEntryDuration]
  const RowsParamsScoreLevelDuration: seq<LevelRow -> Key> :=
    [LevelRowParams, LevelRowScore, LevelRowLevel, LevelRowDuration]

  /** Lines 289-300: every (model, level) entry by parameter count, then
      total relative score, then difficulty level, then median duration,
      all ascending. */
  function DlPerformanceVsParameterCount(entries: seq<Stats.LevelEntry>): (rows: seq<LevelRow>)
    ensures multiset(rows) == multiset(Seqs.Map(LevelRowOf, entries))
    ensures forall i | 0 <= i < |rows| - 1 :: !SortObjects.Greater(rows[i].params, rows[i + 1].params)
    ensures forall i | 0 <= i < |rows| - 1 && SortObjects.Tie(rows[i].params, rows[i + 1].params) ::
      rows[i].score <= rows[i + 1].score
  {
    var rows := Table(entries, ParamsScoreLevelDuration, [], LevelRowOf);
    KeysOfParamsScoreLevelDuration();
    TableOrdered(entries, ParamsScoreLevelDuration, [], LevelRowOf, RowsParamsScoreLevelDuration);
    LevelsByParamsThenScore(RowsParamsScoreLevelDuration, [], rows);
    rows
  }

  lemma KeysOfParamsScoreLevelDuration()
    ensures forall e: Stats.LevelEntry, k | 0 <= k < |ParamsScoreLevelDuration| ::
      RowsParamsScoreLevelDuration[k](LevelRowOf(e)) == ParamsScoreLevelDuration[k](e)
  {
    forall e: Stats.LevelEntry, k | 0 <= k < |ParamsScoreLevelDuration|
      ensures RowsParamsScoreLevelDuration[k](LevelRowOf(e)) == ParamsScoreLevelDuration[k](e)
    {
    }
  }

  lemma LevelsByParamsThenScore(
    keys: seq<LevelRow -> Key>, order: seq<SortObjects.Direction>, rows: seq<LevelRow>)
    requires |keys| >= 2 && keys[0] == LevelRowParams && keys[1] == LevelRowScore
    requires order == []
    requires forall i | 0 <= i < |rows| - 1 ::
      LeadingKeysInOrder(keys, order, rows[i], rows[i + 1])
    ensures forall i | 0 <= i < |rows| - 1 :: !SortObjects.Greater(rows[i].params, rows[i + 1].params)
    ensures forall i | 0 <= i < |rows| - 1 && SortObjects.Tie(rows[i].params, rows[i + 1].params) ::
      rows[i].score <= rows[i + 1].score
  {
  }

  const DurationScoreLevelParams: seq<Stats.LevelEntry -> Key> :=
    [LevelEntryDuration, LevelEntryScore, LevelEntryLevel, LevelEntryParams]
  const RowsDurationScoreLevelParams: seq<LevelRow -> Key> :=
    [LevelRowDuration, LevelRowScore, LevelRowLevel, LevelRowParams]

  /** Lines 317-328: every (model, level) entry by median duration, then
      total relative score, then difficulty level, then parameter count,
      all ascending. */
  function DlPerformanceVsResponseTime(entries: seq<Stats.LevelEntry>): (rows: seq<LevelRow>)
    ensures multiset(rows) == multiset(Seqs.Map(LevelRowOf, entries))
    ensures forall i | 0 <= i < |rows| - 1 :: !SortObjects.Greater(rows[i].duration, rows[i + 1].duration)
    ensures forall i | 0 <= i < |rows| - 1 && SortObjects.Tie(rows[i].duration, rows[i + 1].duration) ::
      rows[i].score <= rows[i + 1].score
  {
    var rows := Table(entries, DurationScoreLevelParams, [], LevelRowOf);
    KeysOfDurationScoreLevelParams();
    TableOrdered(entries, DurationScoreLevelParams, [], LevelRowOf, RowsDurationScoreLevelParams);
    LevelsByDurationThenScore(RowsDurationScoreLevelParams, [], rows);
    rows
  }

  lemma KeysOfDurationScoreLevelParams()
    ensures forall e: Stats.LevelEntry, k | 0 <= k < |DurationScoreLevelParams| ::
      RowsDurationScoreLevelParams[k](LevelRowOf(e)) == DurationScoreLevelParams[k](e)
  {
    forall e: Stats.LevelEntry, k | 0 <= k < |DurationScoreLevelParams|
      ensures RowsDurationScoreLevelParams[k](LevelRowOf(e)) == DurationScoreLevelParams[k](e)
    {
    }
  }

  lemma LevelsByDurationThenScore(
    keys: seq<LevelRow -> Key>, order: seq<SortObjects.Direction>, rows: seq<LevelRow>)
    requires |keys| >= 2 && keys[0] == LevelRowDuration && keys[1] == LevelRowScore
    requires order == []
    requires forall i | 0 <= i < |rows| - 1 ::
      LeadingKeysInOrder(keys, order, rows[i], rows[i + 1])
    ensures forall i | 0 <= i < |rows| - 1 :: !SortObjects.Greater(rows[i].duration, rows[i + 1].duration)
    ensures forall i | 0 <= i < |rows| - 1 && SortObjects.Tie(rows[i].duration, rows[i + 1].duration) ::
      rows[i].score <= rows[i + 1].score
  {
  }

  // ---------------------------------------------------------------------
  // The tables of a run

  function RowModel(r: ModelRow): string { r.model }

  /** The models a per-model table names are the run's models, each once. */
  predicate NamesEachOnce(rows: seq<ModelRow>, models: seq<string>) {
    multiset(Seqs.Map(RowModel, rows)) == multiset(models) && Seqs.NoDuplicates(Seqs.Map(RowModel, rows))
  }

  /** Rows rearranging the rows of entries for distinct models name each of
      those models exactly once. */
  lemma RowsNameEachOnce(data: seq<Stats.ModelEntry>, models: seq<string>, rows: seq<ModelRow>)
    requires |data| == |models| && forall i | 0 <= i < |data| :: data[i].model == models[i]
    requires Seqs.NoDuplicates(models)
    requires multiset(rows) == multiset(Seqs.Map(ModelRowOf, data))
    ensures NamesEachOnce(rows, models)
  {
    Seqs.MapOfPermutation(RowModel, Seqs.Map(ModelRowOf, data), rows);
    assert Seqs.Map(RowModel, Seqs.Map(ModelRowOf, data)) == models;
    Seqs.PermutationKeepsDistinct(models, Seqs.Map(RowModel, rows));
  }

  /** Each of the four per-model tables of a run lists every model of the
      run exactly once. */
  lemma ModelTablesNameEachModelOnce(records: seq<Types.Attempt>)
    requires Stats.NamesHaveColons(records)
    ensures var agg := Stats.Aggregate(records).value;
      && NamesEachOnce(PerformanceScoresAcrossModels(agg.data), agg.models)
      && NamesEachOnce(ModelPerformanceVsParameterCount(agg.data), agg.models)
      && NamesEachOnce(ModelResponseTimeVsParameterCount(agg.data), agg.models)
      && NamesEachOnce(ModelPerformanceVsResponseTime(agg.data), agg.models)
  {
    var agg := Stats.Aggregate(records).value;
    Stats.EntriesNameModels(records);
    RowsNameEachOnce(agg.data, agg.models, PerformanceScoresAcrossModels(agg.data));
    RowsNameEachOnce(agg.data, agg.models, ModelPerformanceVsParameterCount(agg.data));
    RowsNameEachOnce(agg.data, agg.models, ModelResponseTimeVsParameterCount(agg.data));
    RowsNameEachOnce(agg.data, agg.models, ModelPerformanceVsResponseTime(agg.data));
  }

  /** The flattened entries of a run, as the second per-level table sees
      them: the first per-level table sorted them in place (line 289), so
      they are the same entries, by parameter count and then by score. */
  function ResortedEntries(entries: seq<Stats.LevelEntry>): (resorted: seq<Stats.LevelEntry>)
    ensures multiset(resorted) == multiset(entries)
    ensures forall i | 0 <= i < |resorted| - 1 :: !SortObjects.Greater(resorted[i].params, resorted[i + 1].params)
    ensures forall i | 0 <= i < |resorted| - 1 && SortObjects.Tie(resorted[i].params, resorted[i + 1].params) ::
      resorted[i].stats.totalRelativeScore <= resorted[i + 1].stats.totalRelativeScore
  {
    SortObjects.SortedOnLeadingProperties(entries, ParamsScoreLevelDuration, []);
    SortObjects.SortObjectsByProperties(entries, ParamsScoreLevelDuration, [])
  }

  /** Both per-level tables of a run have a row for every pair of a model
      and a difficulty level of the run, and hold the rows of the same
      entries. */
  lemma LevelTablesCoverEveryPair(records: seq<Types.Attempt>)
    requires Stats.NamesHaveColons(records)
    ensures var agg := Stats.Aggregate(records).value;
      var entries := Stats.ResultEntries(agg.data);
      && |DlPerformanceVsParameterCount(entries)| == |agg.models| * |agg.difficultyLevels|
      && |DlPerformanceVsResponseTime(ResortedEntries(entries))| == |agg.models| * |agg.difficultyLevels|
      && multiset(DlPerformanceVsResponseTime(ResortedEntries(entries))) == multiset(Seqs.Map(LevelRowOf, entries))
  {
    var agg := Stats.Aggregate(records).value;
    var entries := Stats.ResultEntries(agg.data);
    Stats.ResultEntriesOfRun(records);
    SameRowsAfterResort(entries);
  }

  lemma SameRowsAfterResort(entries: seq<Stats.LevelEntry>)
    ensures multiset(DlPerformanceVsResponseTime(ResortedEntries(entries))) == multiset(Seqs.Map(LevelRowOf, entries))
    ensures |DlPerformanceVsParameterCount(entries)| == |entries|
    ensures |DlPerformanceVsResponseTime(ResortedEntries(entries))| == |entries|
  {
    var resorted := ResortedEntries(entries);
    var rows := DlPerformanceVsParameterCount(entries);
    var rows2 := DlPerformanceVsResponseTime(resorted);
    Seqs.MapOfPermutation(LevelRowOf, resorted, entries);
    assert |rows| == |multiset(rows)|;
    assert |rows2| == |multiset(rows2)|;
  }

  /** The six tables a run writes out. */
  datatype Tables = Tables(
    performanceScoresAcrossModels: seq<ModelRow>,
    modelPerformanceVsParameterCount: seq<ModelRow>,
    modelResponseTimeVsParameterCount: seq<ModelRow>,
    modelPerformanceVsResponseTime: seq<ModelRow>,
    dlPerformanceVsParameterCount: seq<LevelRow>,
    dlPerformanceVsResponseTime: seq<LevelRow>)

  /** get_stats.ts from the parsed records to the six tables: nothing when
      a model name has no colon, otherwise every model once in each
      per-model table and every (model, level) pair once in each per-level
      table. */
  function Statistics(records: seq<Types.Attempt>): (r: Result<Tables, ParamsNum.ParamsError>)
    ensures r.Failure? <==> exists k | 0 <= k < |records| :: ':' !in records[k].model
    ensures r.Success? ==> var agg := Stats.Aggregate(records).value;
      && NamesEachOnce(r.value.performanceScoresAcrossModels, agg.models)
      && NamesEachOnce(r.value.modelPerformanceVsParameterCount, agg.models)
      && NamesEachOnce(r.value.modelResponseTimeVsParameterCount, agg.models)
      && NamesEachOnce(r.value.modelPerformanceVsResponseTime, agg.models)
      && |r.value.dlPerformanceVsParameterCount| == |agg.models| * |agg.difficultyLevels|
      && |r.value.dlPerformanceVsResponseTime| == |agg.models| * |agg.difficultyLevels|
  {
    match Stats.Aggregate(records)
    case Failure(e) => Failure(e)
    case Success(agg) =>
      ModelTablesNameEachModelOnce(records);
      LevelTablesCoverEveryPair(records);
      var entries := Stats.ResultEntries(agg.data);
      Success(Tables(
        PerformanceScoresAcrossModels(agg.data),
        ModelPerformanceVsParameterCount(agg.data),
        ModelResponseTimeVsParameterCount(agg.data),
        ModelPerformanceVsResponseTime(agg.data),
        DlPerformanceVsParameterCount(entries),
        DlPerformanceVsResponseTime(ResortedEntries(entries))))
  }
}
