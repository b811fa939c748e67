# llm-so scoring and statistics, modelled in Dafny

llm-so benchmarks local language models. It asks each model for JSON that
matches a schema, then scores every reply. One reply earns 10 points for
parsing as JSON, 30 more for matching the schema and 60 more for equalling
the expected data. That absolute score is multiplied by the test case's
difficulty level to give the relative score. Each attempt is logged as a
`Result` record.

A statistics script reads the logged records. It groups them by model and
by (model, difficulty level). For each group it computes counts, totals,
averages and medians. It then writes six tables. Each table sorts the
entries on several keys with `sortObjectsByProperties` and cuts them down
to rows of model, score, parameter count, median duration and, in the
per-level tables, difficulty level. A model's parameter count comes from
its name (`gemma2:27b` has 27, `mixtral:8x7b` has 56).

The Dafny modules follow the source files:

- `Options` holds `Option` and `Result`. JavaScript's `NaN` and `undefined` become `None`, and a thrown error becomes a `Failure`.
- `Types` holds the logged record, `Result` in `types.ts`, named `Attempt` here.
- `Scoring` covers the validation cascade and scoring in `main.ts`.
- `Seqs` holds sequence helpers: `map`, `filter`, `[...new Set(xs)]`, sums, minimum and maximum.
- `ArraySort` stands for `Array.prototype.sort` with a comparator, as a stable insertion sort.
- `CalcMedian` covers `calc_median.ts`.
- `SortObjects` covers `sort_objects_by_properties.ts`.
- `ParamsNum` covers `get_params_num.ts`.
- `Stats` covers the aggregation in `get_stats.ts`, lines 10-160.
- `Reports` covers the six tables in `get_stats.ts`, lines 166-330.
- `RunExample` aggregates a small three-attempt run by hand, as a check that the definitions compute what the script would.

Numbers are exact: scores and durations are integers, averages and medians
are reals. Wherever the source divides by a zero count or takes the median
of nothing, it produces `NaN`; the model returns `None` there.

Two details of the code that the tables depend on:

- Only the first table (get_stats.ts lines 166-170) passes a direction list, `["desc"]`. The other five pass none, so every key there, score included, sorts ascending.
- The per-model duration total and median use `filter(Boolean)`, which drops a zero duration as well as a missing one. The per-level total reads a missing duration as 0, which gives the same sum. The per-level median drops both kinds, like the per-model median.

## Model

| member | source | states |
|---|---|---|
| Scoring.Validate | main.ts:990-1029 | The three flags form a cascade: each holds only if the one before it does. JSON format holds exactly when the reply is present, non-empty and parses. Schema holds exactly when it also conforms. Data holds exactly when it also equals the expected value. A missing or empty reply sets no flag. |
| Scoring.AbsoluteScore | main.ts:1036-1047 | The reduce over the three flags adds 10, 30 and 60 for the flags that hold, independently of their order. The result lies in 0..100. |
| Scoring.IsSuccessful | main.ts:1053 | An attempt succeeds exactly when all three flags hold. |
| Scoring.MakeAttempt | main.ts:1056-1065 | The logged record keeps the model, level, iteration and duration. It carries the validation flags. Its scores and success flag are consistent: the flags cascade, the absolute score is the 10/30/60 weighting, the relative score is absolute × level, and success means all three flags. |
| Scoring.ScoreTiers | main.ts:1036-1047 | Under the cascade, the only reachable scores are 0, 10, 40 and 100. Each tier corresponds to exactly one highest flag that holds. |
| Scoring.SuccessIsFullScore | main.ts:1036-1053 | An attempt succeeds exactly when it scores 100. |
| Scoring.WellFormedScores | main.ts:1050-1065 | A logged record has an absolute score of 0, 10, 40 or 100 and a relative score of that tier times its level. It succeeds exactly when its data is valid, and exactly when it scores 100. |
| Scoring.FailedAttemptScoresNothing | main.ts:1001-1008 | A missing or empty reply, such as a failed request turned into an empty object, is logged with no flag set, zero scores and no success. A failed request also carries no duration. |
| Seqs.Distinct | get_stats.ts:10 | `[...new Set(xs)]` holds every value of `xs` and nothing else, with no repeats. Values are in first-seen order. |
| Seqs.DistinctOfNew | get_stats.ts:10 | Adding a value not yet seen to the input adds it at the end of the distinct values. |
| Seqs.DistinctOfSeen | get_stats.ts:10 | Adding a value already seen to the input leaves the distinct values unchanged. |
| Seqs.Filter | get_stats.ts:158 | The kept elements are exactly the elements of the input that satisfy the predicate. When all elements satisfy it, the input comes back unchanged. |
| Seqs.FilterSplits | get_stats.ts:158 | Filtering by a predicate and by its negation splits the input: the two results together hold every element exactly once. |
| Seqs.MapOfPermutation | get_stats.ts:170-175 | Mapping the elements of two rearrangements of each other gives two rearrangements of each other. |
| ArraySort.Sort | sort_objects_by_properties.ts:15-27 | The sort returns a rearrangement of its input. With an antisymmetric comparator, every element is ordered before its successor. |
| ArraySort.OrderedIsPairwise | sort_objects_by_properties.ts:15-27 | If the comparator is transitive on the elements, consecutive order implies that every element is ordered before every later one. |
| ArraySort.SortCommutesWithProjection | get_stats.ts:166-175 | Sorting and then mapping gives the same result as mapping and then sorting by a comparator that sees the same keys. |
| CalcMedian.SortNumeric | calc_median.ts:2 | Sorting with `(a, b) => a - b` gives an ascending rearrangement of the data. |
| CalcMedian.Median | calc_median.ts:1-11 | The median of non-empty data lies between its least and greatest values. |
| CalcMedian.Middle | calc_median.ts:3-10 | For sorted data, the value read off lies between the two middle elements, which coincide when the length is odd. |
| CalcMedian.AscendingUnique | calc_median.ts:2 | Two ascending rearrangements of the same values are equal. So the sorted order does not depend on the input order. |
| CalcMedian.MedianPermutationInvariant | calc_median.ts:1-11 | Rearranging the data leaves the median unchanged. |
| CalcMedian.MedianOfReverse | calc_median.ts:1-11 | Reversing the data leaves the median unchanged. |
| CalcMedian.MedianOddIsMiddleElement | calc_median.ts:10 | For an odd length, the median is the middle element of the sorted data, so it is one of the data values. |
| CalcMedian.MedianEvenIsMeanOfMiddle | calc_median.ts:4-7 | For an even length, the median is the mean of the two middle sorted elements, so it lies between them. |
| CalcMedian.MedianExampleOdd | calc_median.ts:10 | The median of `[3, 1, 2]` is 2. |
| CalcMedian.MedianExampleEven | calc_median.ts:4-7 | The median of `[1, 2, 3, 4]` is 2.5. |
| SortObjects.SortObjectsByProperties | sort_objects_by_properties.ts:10-28 | The result is a rearrangement of the objects. Each object is ordered before its successor by the cascading comparator. |
| SortObjects.CompareAntisymmetric | sort_objects_by_properties.ts:15-27 | The comparator returns -1, 0 or 1. Swapping the arguments negates the result. An object compares equal to itself. |
| SortObjects.CompareFrom | sort_objects_by_properties.ts:16-26 | The loop over the properties from a given one on returns -1, 0 or 1, and 0 once the properties run out. |
| SortObjects.CompareFromZeroIffTies | sort_objects_by_properties.ts:16-26 | Started at a given property, the loop returns 0 exactly when the records tie on that property and on every later one. |
| SortObjects.Compare | sort_objects_by_properties.ts:15-27 | The comparator returns -1, 0 or 1. It returns 0 exactly when no property makes either `>` or `<` succeed. This includes properties that are `NaN` on either side, and the case of an empty property list. |
| SortObjects.FirstDifferenceDecides | sort_objects_by_properties.ts:16-24 | The first property on which the two objects differ decides the result, with its direction. Earlier tied properties are skipped. |
| SortObjects.OrderedOnFirstDifference | sort_objects_by_properties.ts:16-24 | If `a` is ordered before `b`, then on the first property where they do not tie, `a` is not after `b` in that property's direction. |
| SortObjects.SortedOnLeadingProperties | sort_objects_by_properties.ts:10-28 | In the sorted result, consecutive objects are in order on the first property. Where they tie on it, they are in order on the second. |
| SortObjects.MissingDirectionsAreAscending | sort_objects_by_properties.ts:13-22 | Extending `order` with `"asc"` entries never changes a comparison. So a short or empty `order` means ascending. |
| SortObjects.FlipOneDirection | sort_objects_by_properties.ts:18-23 | Flipping one property's direction negates exactly the comparisons that property decides. All other comparisons are unchanged. |
| SortObjects.SortedPairwise | sort_objects_by_properties.ts:10-28 | When no property is `NaN`, every object is ordered before every later one. |
| SortObjects.SortCommutesWithProjection | sort_objects_by_properties.ts:10-28 | Sorting records and then mapping them to rows that keep the sort keys gives the same as mapping first and then sorting the rows. |
| SortObjects.SortExample | sort_objects_by_properties.ts:10-28 | `[{a:2,b:1},{a:1,b:2},{a:1,b:1}]` sorted by `a` then `b` gives `[{a:1,b:1},{a:1,b:2},{a:2,b:1}]`. |
| ParamsNum.Split | get_params_num.ts:12-14 | `split` with one character returns at least one piece, and no piece contains the separator. The input comes back whole exactly when it has no separator. |
| ParamsNum.SplitJoin | get_params_num.ts:12-14 | Joining the pieces of `split` with the separator gives back the input. |
| ParamsNum.RemoveFirst | get_params_num.ts:12 | `replace("b", "")` removes exactly one character when a `b` is present. Otherwise it returns the input. |
| ParamsNum.RemoveFirstKeepsLater | get_params_num.ts:12 | Only the first `b` is removed. Later ones stay. |
| ParamsNum.ToNumber | get_params_num.ts:15-17 | A string converts to a number only if it consists of digits and dots. The number is never negative. |
| ParamsNum.GetParamsNumber | get_params_num.ts:11-18 | The call throws exactly when the model name has no colon. Otherwise the count is either `NaN` or non-negative. |
| ParamsNum.SizeCount | get_params_num.ts:12-17 | Apart from the missing colon, the only failure is `NaN`. |
| ParamsNum.OnlySecondPieceIsRead | get_params_num.ts:12 | Anything after a second colon is ignored. |
| ParamsNum.ModelNameCount | get_params_num.ts:12 | For `family:size`, the count depends only on `size`. |
| ParamsNum.ProductOfFirstTwoFactors | get_params_num.ts:13-15 | When the size has an `x`, the count is the product of the first two factors. Later factors are ignored. |
| ParamsNum.PlainNumber | get_params_num.ts:17 | A size without `x` converts directly, after its first `b` is dropped. |
| ParamsNum.UnitSize | get_params_num.ts:12-17 | For `family:<n>b`, the count is the number `n`. |
| ParamsNum.PlainSize | get_params_num.ts:11-18 | For any whole number `n`, `family:<n>b` has `n` parameters. |
| ParamsNum.ProductSize | get_params_num.ts:13-15 | For any whole numbers `a` and `c`, `family:<a>x<c>b` has `a·c` parameters. |
| ParamsNum.DecimalSize | get_params_num.ts:17 | `family:<w>.<f>b` has the decimal value `w.f`. |
| ParamsNum.GemmaExample | get_params_num.ts:11-18 | `gemma2:27b` has 27 parameters. |
| ParamsNum.MixtralExample | get_params_num.ts:13-15 | `mixtral:8x7b` has 56 parameters. |
| ParamsNum.QwenExample | get_params_num.ts:17 | `qwen2.5:0.5b` has 0.5 parameters. |
| ParamsNum.MissingColonExample | get_params_num.ts:12 | `llama3.2` throws. |
| Stats.Having | get_stats.ts:50 | Filtering by a key never lengthens the records. |
| Stats.HavingMembers | get_stats.ts:50 | The group for a key holds exactly the records carrying that key. |
| Stats.HavingIsFilter | get_stats.ts:50 | The group for a key is exactly `records.filter((r) => key(r) === k)`, in the records' order. |
| Stats.HavingOfHead | get_stats.ts:50 | A record added in front of the records heads the group of its own key and joins no other group. |
| Stats.Total | get_stats.ts:67-73 | Counting attempts gives the group size. Each flag total lies between 0 and the group size. |
| Stats.TotalAppend | get_stats.ts:67-73 | Totals are additive over concatenated groups. |
| Stats.PresentDurations | get_stats.ts:52-54 | Every present, non-zero duration of the group is kept and every zero is dropped. There are no more durations than records. |
| Stats.PresentDurationsComeFromGroup | get_stats.ts:52-54 | Every kept duration is the duration of some record of the group. |
| Stats.PresentDurationsAreFiltered | get_stats.ts:52-54 | The kept durations are exactly `map((r) => r.duration)` followed by `filter(Boolean)`, in the records' order and with repeats. |
| Stats.DurationTotalsAgree | get_stats.ts:67 | A model's total of its present durations equals the sum of `duration ?? 0`, as computed per level at line 110. |
| Stats.Average | get_stats.ts:90-95 | An average is absent exactly when the count is zero. Otherwise it times the count gives back the total. |
| Stats.RateAverage | get_stats.ts:131-143 | The average of a flag count over its group lies in [0, 1]. |
| Stats.MedianOf | get_stats.ts:97-99 | A median exists exactly when there are values. |
| Stats.MedianOfBounds | get_stats.ts:97-99 | A median lies between the least and greatest value. |
| Stats.LevelSummary | get_stats.ts:104-149 | The count is the group size. Every total is the group's sum of its quantity. Every average is its total over the count. The duration median is over present non-zero durations, and the score medians are over all attempts. |
| Stats.ModelSummaryAsWritten | get_stats.ts:62-99 | As the code stands, totals, medians and every average but one are as for a level. The JSON-format average stays at its initial 0. |
| Stats.ModelSummary | get_stats.ts:62-99 | The per-model summary with every average, JSON format included, computed as its total over the count. |
| Stats.JsonAverageNeverAssigned | get_stats.ts:90-95 | For one attempt with valid JSON, the code as written leaves a JSON-format average of 0 against a total of 1. The intended average is 1. |
| Stats.CorrectionTouchesOnlyJsonAverage | get_stats.ts:62-99 | The code's per-model summary and the corrected one differ only in the JSON-format average. For a non-empty group the corrected average is defined. |
| Stats.TotalsFollowTheCascade | get_stats.ts:67-73 | Over well-formed records: success count = data count ≤ schema count ≤ JSON count ≤ group size. The absolute-score total is 10/30/60 times the flag counts, and lies in 0..100 × size. |
| Stats.SummaryFollowsTheCascade | get_stats.ts:104-149 | A level summary of well-formed records keeps the cascade among its totals. Its schema average is a rate. Its median absolute score lies in 0..100. |
| Stats.PartitionTotals | get_stats.ts:48-50 | When the keys are distinct and cover every record, summing a quantity over the keys' groups gives the total over all records. |
| Stats.Models | get_stats.ts:10 | The models are distinct, in first-seen order. Each record's model is among them, and each of them is some record's model. |
| Stats.DifficultyLevels | get_stats.ts:16 | The levels are strictly ascending. Each record's level is among them, and each of them is some record's level. |
| Stats.RecordOrder | get_stats.ts:101-152 | `Object.values` of a record keyed by ascending integer levels is a rearrangement of the levels. It keeps them distinct. It keeps their order when every level is an array index. |
| Stats.RecordOrderFacts | get_stats.ts:157-160 | Array-index keys first, then the other keys, is a rearrangement of the keys. |
| Stats.NegativeLevelsListedLast | get_stats.ts:157-160 | Levels `[-1, 0, 1]` are listed as `[0, 1, -1]`. |
| Stats.LevelEntries | get_stats.ts:101-152 | A model has one entry per level of the run, including levels it never ran. Each entry summarises that model's records at that level. |
| Stats.StoredParams | get_stats.ts:64 | A stored parameter count is present exactly when the name parses, and is then non-negative. |
| Stats.ModelEntryOf | get_stats.ts:62-153 | A model's entry carries its name and parameter count, and has one per-level entry per level. |
| Stats.ModelEntries | get_stats.ts:47-154 | There is one entry per model, in first-seen order. |
| Stats.Aggregate | get_stats.ts:10-154 | The run fails exactly when some record's model has no colon, because line 13 parses every name. Otherwise it yields the distinct models, the ascending levels and one entry per model. |
| Stats.NamesWithoutColon | get_stats.ts:10-13 | Every distinct model has a colon exactly when every record's model has one. |
| Stats.EntriesCarryModelTotals | get_stats.ts:62-73 | Each model entry's totals are the sums over that model's records. |
| Stats.EntryAsWritten | get_stats.ts:47-154 | Each model entry of a run, with its JSON-format average put back to 0, is the summary the code computes for that model. |
| Stats.ModelTotalsAddUp | get_stats.ts:47-154 | The model entries' totals add up to the totals of the whole run. In particular, their counts add up to the number of records. |
| Stats.ModelsAreNonEmpty | get_stats.ts:48-95 | Every model entry counts at least one record, so its averages are defined. |
| Stats.LevelTotalsAddUp | get_stats.ts:101-152 | A model's per-level totals add up to the model's totals. |
| Stats.EntryLevelsAddUp | get_stats.ts:101-152 | If the levels cover every record, a model's per-level totals add up to its totals. |
| Stats.LevelsOfModelCovered | get_stats.ts:101-102 | Every record of a model falls in one of the listed levels. |
| Stats.LevelEntriesFollowLevels | get_stats.ts:101-152 | When every level is an array index, a model's per-level entries follow the ascending levels. |
| Stats.ResultEntries | get_stats.ts:157-160 | The flattened list holds exactly the per-level entries of the models. |
| Stats.ResultEntriesOfRun | get_stats.ts:157-160 | The flattened list has one entry per (model, level) pair of the run. |
| Reports.TableOrdered | get_stats.ts:166-175 | When each sort key can be read off the row as well, the table is a rearrangement of the entries' rows. It is in order on the first key and, among ties, on the second. |
| Reports.PerformanceScoresAcrossModels | get_stats.ts:166-175 | The table rearranges the model rows. Scores do not increase, and among equal scores parameter counts are in ascending order. |
| Reports.ModelPerformanceVsParameterCount | get_stats.ts:212-221 | The table rearranges the model rows. It is ascending by parameter count, and by score among ties. |
| Reports.ModelResponseTimeVsParameterCount | get_stats.ts:230-239 | The table rearranges the model rows. It is ascending by parameter count, and by median duration among ties. |
| Reports.ModelPerformanceVsResponseTime | get_stats.ts:248-257 | The table rearranges the model rows. It is ascending by median duration, and by score among ties. |
| Reports.DlPerformanceVsParameterCount | get_stats.ts:289-300 | The table rearranges the per-level rows. It is ascending by parameter count, and by score among ties. |
| Reports.DlPerformanceVsResponseTime | get_stats.ts:317-328 | The table rearranges the per-level rows. It is ascending by median duration, and by score among ties. |
| Reports.RowsNameEachOnce | get_stats.ts:166-175 | Rows that rearrange the rows of entries for distinct models name each of those models exactly once. |
| Reports.ModelTablesNameEachModelOnce | get_stats.ts:166-257 | Each of the four per-model tables of a run lists every model of the run exactly once. |
| Reports.LevelTablesCoverEveryPair | get_stats.ts:289-328 | Both per-level tables of a run have one row per (model, level) pair. The second table holds the same rows as the flattened entries, although it sorts them after the first table has reordered them in place. |
| Reports.ResortedEntries | get_stats.ts:289-294 | After the first per-level table has sorted the flattened entries in place, they are the same entries, by parameter count and then by score, both ascending. The second table sorts this order. |
| Reports.SameRowsAfterResort | get_stats.ts:289-328 | Sorting entries that an earlier sort has already reordered still gives a rearrangement of the original entries' rows. |
| Reports.Statistics | get_stats.ts:10-330 | The whole script from parsed records to its six tables. It fails exactly when some model name has no colon. Otherwise each per-model table lists every model exactly once, and each per-level table has one row per (model, level) pair. |
| RunExample.ModelsOfRun | get_stats.ts:10 | The worked run has three attempts, all of model `m:1b`. Its model list is that one name. |
| RunExample.LevelsOfRun | get_stats.ts:16 | The worked run's levels 1, 1 and 2 give the ascending distinct levels 1 and 2. |
| RunExample.GroupsOfRun | get_stats.ts:50 | The model filter keeps all three attempts. The level filters keep the two attempts at level 1 and the one attempt at level 2. |
| RunExample.TotalsOfRun | get_stats.ts:62-75 | The worked run's totals are 110 points, 2 JSON replies, 1 success and 400 duration units. Level 1 holds all 110 points and level 2 none. |
| RunExample.DurationsOfRun | get_stats.ts:52-54 | The attempt without a duration drops out, leaving the durations 100 and 300. |
| RunExample.MedianOfDurations | calc_median.ts:1-11 | Two values have the mean of the two as their median: 200 for 100 and 300. |
| RunExample.ParamsOfRun | get_params_num.ts:11-18 | `m:1b` has a size of one billion parameters, stored as 1. |
| RunExample.SummaryOfRun | get_stats.ts:62-99 | The model's summary counts 3 attempts with 110 points, 1 success and 400 duration units. Its median duration is 200. Its JSON-format average is 2/3, the corrected value (see Findings). |
| RunExample.JsonAverageOfRun | get_stats.ts:62-99 | For the worked run the code leaves the JSON-format average at 0 although 2 of 3 replies parsed. The corrected average is 2/3. |
| RunExample.LevelEntriesOfRun | get_stats.ts:101-152 | Level 1's entry counts 2 attempts and 110 points. Level 2's entry counts 1 attempt and no points. |
| RunExample.EntryOfRun | get_stats.ts:48-153 | The model's entry pairs its corrected summary with one level entry per level. Levels 1 and 2 are integer keys, so they come out in ascending order. |
| RunExample.AggregateOfRun | get_stats.ts:10-154 | The worked run aggregates without error. It yields the one model, the levels 1 and 2 and a single entry for `m:1b` with 1 billion parameters. |

## Left out

- Fetching completions, writing result files, reading `results.txt`, console logging and CSV export (`export_to_csv.ts`) are I/O. The model takes the completion fields as inputs and returns the tables as values.
- `combine_results.ts` merges result files on disk. It is I/O and is not part of this model.
- `JSON.parse(completion.trim())`, the compiled Ajv schema validator and `assertEquals` are left as function parameters of `Scoring.Validate`. Their own behaviour is not modelled.
- Floating point is left out. Durations and scores are integers, averages and medians are exact reals, and `NaN` is `None`.
- ParamsNum.ToNumber: models `Number()` only for the empty string (0) and plain decimals of digits with at most one dot. Whitespace, signs, exponents, hexadecimal and `Infinity` forms are treated as `NaN`.
- CalcMedian.Median: requires non-empty data. The empty case, which yields `NaN` in the source, is modelled one level up by `Stats.MedianOf` returning `None`.
- CalcMedian.SortNumeric and ArraySort.Sort: the source sorts in place. The model returns a new sequence, and no caller here reuses the unsorted array.
- ArraySort.Sort: the engine's sort algorithm is unknown, so it is modelled as a stable insertion sort. Stability itself is not stated. When a key is `NaN`, the comparator is not consistent, and the engine's order is then implementation-defined. The model fixes one order, of which only the consecutive-pair property is claimed.
- SortObjects.SortedPairwise: stated only when no key is `NaN`. With `NaN` keys, the "ordered before" relation is not transitive, and only consecutive pairs are ordered.
- Reports.PerformanceScoresAcrossModels, Reports.ModelPerformanceVsParameterCount, Reports.ModelResponseTimeVsParameterCount, Reports.ModelPerformanceVsResponseTime, Reports.DlPerformanceVsParameterCount and Reports.DlPerformanceVsResponseTime: they state the order on the first two keys only. Later keys are covered by the comparator property of `SortObjects.SortObjectsByProperties`.
- The sorted list of distinct parameter counts at get_stats.ts line 13 is only logged. The model keeps only its effect: it throws when a name has no colon.
- `Reports.Statistics` keeps one effect of in-place sorting. The second per-level table sorts the flattened entries as the first per-level table left them. The per-model tables each sort a fresh `Object.values` array.
- The commented-out tables at get_stats.ts lines 186-208 and 266-275 are left out.
- Stats.Aggregate: its entries, and so `Stats.ModelEntryOf`, `Stats.ModelEntries` and `RunExample.EntryOfRun`, carry the corrected per-model summary. The code leaves the JSON-format average at 0 instead (see Findings). `Stats.EntryAsWritten` states that this is the only difference. No table reads the field.
- SortObjects.SortObjectsByProperties: property values are numbers or `NaN` only. Every call in get_stats.ts sorts numeric fields. String comparison by UTF-16 code units, and mixed-type comparison with coercion, are not modelled.
- Stats.LevelEntriesFollowLevels: stated only when every level is an array index. Other integer levels are listed after them, as `Stats.RecordOrder` states.
- Stats.Aggregate: the guard `if (!data[model])` at line 49 never fails, because the models are distinct. The model omits it.
- The 10-iteration loop, prompts and test-case data in `main.ts` are left out. They only supply the inputs that `Scoring.MakeAttempt` takes.

## Findings

| source | as written | input that shows it | evidently intended | confidence | as-written member | corrected member |
|---|---|---|---|---|---|---|
| get_stats.ts:62-99 | The per-model summary initialises `averageHasValidJsonFormat` to 0 and never assigns it. Every other average is assigned as total over count. | One attempt of a model with valid JSON: `totalHasValidJsonFormat` is 1 but `averageHasValidJsonFormat` is 0. | The JSON-format average is total over count, as for the per-level summary at lines 132-133. | not executed | Stats.ModelSummaryAsWritten, Stats.JsonAverageNeverAssigned | Stats.ModelSummary |
