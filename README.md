# AboutCloud analytics core, modelled in Dafny

This project models the deterministic core of the AboutCloud multi-tenant
cloud-metrics backend. It covers the analytics layer and the layers around it:

- the data contracts: metric series, anomaly results and aggregated scores, with their construction checks;
- window extraction: point-count windows, and wall-clock windows over timestamps in seconds;
- the explanation classifier: spike, trend and seasonality detectors, template rendering, and the write-back onto the caller's result;
- hierarchical score aggregation: node, cluster and tenant levels, the max, mean, weighted and p95 strategies, and node ranking;
- the ingestion validator and the ingestion pipeline;
- the nested-dictionary in-memory storage backend;
- the simulator's anomaly injectors and the post-processing of its generator.

One Dafny module per source file:

| module | file | source |
|---|---|---|
| `Basics` | basics.dfy | shared helpers: Option/Result, sums, means, filters, Python's `in` on strings |
| `Types` | types.dfy | backend/analytics/types.py |
| `Windows` | windows.dfy | backend/analytics/windows.py |
| `Explain` | explain.dfy | backend/analytics/explain.py |
| `Scoring` | scoring.dfy | the max/min/sort/percentile arithmetic of backend/analytics/aggregation.py |
| `Aggregation` | aggregation.dfy | backend/analytics/aggregation.py |
| `Validator` | validator.dfy | backend/ingestion/validator.py |
| `Storage` | storage.dfy | backend/storage/memory_storage.py |
| `Pipeline` | pipeline.dfy | backend/ingestion/pipeline.py |
| `Generator` | generator.dfy | backend/simulator/generator.py |

Conventions:

- Timestamps and durations are whole seconds (`int`).
- Measurements and scores are `real`.
- Strings are `seq<char>`.
- Python's `ValueError`s become the `Err` side of a `Result`, with one error constructor per raise site.

The code takes two forms, as the source does:

- Pure code becomes functions and lemmas: detectors, scoring, templates, rule checks.
- Code that updates state step by step becomes methods with loops or classes:
  - the window extraction loops;
  - the `_find_idx_*` scans;
  - `_weighted_mean` and `aggregate_nodes`;
  - `validate`, `validate_batch` and the isolation check;
  - the storage class and its filter loop;
  - the pipeline and its `IngestionStats` counters;
  - the injectors' in-place array updates.

  Each such method is proved against a specification function. The properties the source promises are then proved about that function.

Calls into code outside this model become parameters:

- the collector's output;
- whether a storage call raises;
- the clock;
- the simulator's random baseline;
- the number formatter used by templates.
- the template registry: `ExplanationTemplateRegistry._templates` is a class attribute; `Explain` and the classifier methods take it as a `Registry` argument, and `DefaultTemplates` is the value the class defines. A `Registry` holds only templates whose fields are named by keyword, as the class's own are.

## Model

| member | source | states |
|---|---|---|
| Types.MetricSeries.Length | backend/analytics/types.py:65-68 | a constructed series has at least one observation, and as many timestamps as values |
| Types.MetricSeries.TimeRange | backend/analytics/types.py:70-73 | the pair is (first, last) timestamp; for sorted timestamps every observation lies inside it |
| Types.NewMetricSeries | backend/analytics/types.py:55-63 | construction succeeds exactly for equal, non-zero lengths; a length mismatch is reported before emptiness; all fields are kept |
| Types.ParseLabel | backend/analytics/types.py:118-119 | an accepted label string is the name of the label it yields |
| Types.ParseLabelExact | backend/analytics/types.py:118-123 | a string is accepted exactly when it names one of spike/trend/seasonal/normal, and every label's name parses back to it |
| Types.IsAnomalyByName | backend/analytics/types.py:128-131 | `is_anomaly` holds exactly when the stored label is not "normal" |
| Types.AnomalyResult.IsAnomaly | backend/analytics/types.py:128-131 | an anomaly exactly when the label is spike, trend or seasonal, that is anything but normal |
| Types.NewAnomalyResult | backend/analytics/types.py:113-126 | checks in source order: the score in [0,1], then the label, then the optional magnitude in [0,1]; success exactly when all hold, and the result is valid |
| Types.NewAggregatedScore | backend/analytics/types.py:157-161 | succeeds exactly for a score in [0,1], with every field kept |
| Windows.TimeWindow.Size | backend/analytics/windows.py:42-44 | the number of points, end minus start: non-negative exactly for an ordered range and zero exactly for an empty one; `WindowData` shows it is the length of the window's slices |
| Windows.SlidingExtractor.Config | backend/analytics/windows.py:183-191 | the settings are reported, and `is_overlapping` holds exactly when the stride is below the window size |
| Windows.NewSlidingExtractor | backend/analytics/windows.py:90-98 | a non-positive window size is rejected first, then a negative stride; a missing or zero stride becomes the window size |
| Windows.NoFullWindowLeft | backend/analytics/windows.py:145-160 | without partial windows the loop emits nothing once a window no longer fits |
| Windows.WindowsFromShape | backend/analytics/windows.py:140-162 | the emitted windows are in-bounds, numbered consecutively, start one stride apart, and carry the timestamps of their first and last point |
| Windows.FullWindowCount | backend/analytics/windows.py:144-160 | without partial windows: (L - W) / S + 1 windows when the series holds one, else none |
| Windows.PartialWindowCount | backend/analytics/windows.py:144-160 | with partial windows: one window per start 0, S, 2S, ... below the length, i.e. ceil((L - start) / S) |
| Windows.Extract | backend/analytics/windows.py:119-162 | a short series is an error unless partial windows are allowed and it is non-empty, in which case it yields one window over everything; otherwise the windows are well formed, full-sized when partial windows are off, and their number is as counted above |
| Windows.SlideFrom | backend/analytics/windows.py:140-162 | the `while` loop over start positions builds exactly the windows of the recursive definition `WindowsFrom` |
| Windows.WindowData | backend/analytics/windows.py:179-181 | the window's data are exactly its slice of timestamps and of values |
| Windows.FirstAtLeast | backend/analytics/windows.py:266-271 | the first index whose timestamp reaches the target, or none when no timestamp does |
| Windows.EndBefore | backend/analytics/windows.py:274-279 | every timestamp before the returned end is below the target, and the one at the end (if any) reaches it |
| Windows.FindIdxGe | backend/analytics/windows.py:266-271 | the linear scan returns `FirstAtLeast` |
| Windows.FindIdxLt | backend/analytics/windows.py:274-279 | the linear scan returns `EndBefore`, falling back to the length |
| Windows.ScanBelow | backend/analytics/windows.py:266-279 | every timestamp before the index either scan returns lies below the target |
| Windows.FirstIsUnique | backend/analytics/windows.py:266-271 | any index with everything before it below the target and itself reaching it is the scan's answer |
| Windows.CursorWindowExact | backend/analytics/windows.py:240-259 | for sorted timestamps a cursor yields a window exactly when a point lies in [cursor, cursor + duration), and that window holds exactly those points |
| Windows.TimeStep | backend/analytics/windows.py:240-261 | one loop step: a cursor with no points is skipped, otherwise its window is emitted with the next number before the cursor advances by the stride |
| Windows.TimeWindowsShape | backend/analytics/windows.py:240-263 | the time-based windows are non-empty in-bounds ranges numbered consecutively from 1 |
| Windows.TimeWindowsExact | backend/analytics/windows.py:240-259 | for sorted timestamps every emitted window holds exactly the points of some cursor interval before the last timestamp |
| Windows.WindowCursorOnGrid | backend/analytics/windows.py:240-261 | the cursor of every emitted window is the start plus a whole number of strides |
| Windows.TimeWindowOrigin | backend/analytics/windows.py:240-261 | the i-th emitted window is what the loop body computes at the cursor position it was emitted from |
| Windows.WindowAt | backend/analytics/windows.py:241-259 | the loop body computes the cursor's window from the two scans |
| Windows.TimeExtract | backend/analytics/windows.py:230-263 | no window for an empty or single-point series; otherwise exactly the windows of the cursor loop, well shaped |
| Windows.TimeLoopNeverEnds | backend/analytics/windows.py:226-261 | with the stride stored as written, a non-positive stride keeps the cursor below the last timestamp after any number of steps |
| Windows.NewTimeExtractor | backend/analytics/windows.py:226-228 | construction succeeds exactly when the stored stride is positive, so the extraction loop terminates |
| Explain.Square | backend/analytics/explain.py:58-70 | a square is non-negative, and positive for a non-zero number |
| Explain.SquareMonotone | backend/analytics/explain.py:69-70 | on non-negative reals, comparing squares is comparing the numbers |
| Explain.SquareProduct | backend/analytics/explain.py:69-70 | the square of a product is the product of the squares |
| Explain.SumSqDev | backend/analytics/explain.py:58 | the sum of squared deviations is non-negative |
| Explain.SumSqDevZero | backend/analytics/explain.py:58-63 | the squared deviations sum to zero exactly when every value equals the centre |
| Explain.SampleVariance | backend/analytics/explain.py:58 | the sample variance is non-negative |
| Explain.VarianceZeroIffConstant | backend/analytics/explain.py:58-63 | the standard deviation is zero exactly for a constant series |
| Explain.MaxDevIndex | backend/analytics/explain.py:66 | `max(values, key=abs(x - baseline))`: no value lies farther from the baseline, and it is the first of those that lie farthest |
| Explain.PeakDeviation | backend/analytics/explain.py:66-69 | the peak deviation bounds every value's distance from the baseline |
| Explain.SpikeByZScore | backend/analytics/explain.py:49-70 | with sd the sample standard deviation, the spike test is exactly peak deviation / sd > threshold |
| Explain.IsSpike | backend/analytics/explain.py:48-70 | false below three values; a spike needs a positive sample variance; with a negative threshold every non-constant series of three or more values is a spike |
| Explain.QuotientAbove | backend/analytics/explain.py:69-70 | d / sd > t exactly when d > t * sd, for sd > 0 |
| Explain.ZScoreSquared | backend/analytics/explain.py:69-70 | the z-score comparison restated without square roots |
| Explain.SpikeNeedsVariation | backend/analytics/explain.py:54-63 | a spike needs at least three values that are not all equal |
| Explain.DetectTrend | backend/analytics/explain.py:77-79 | fewer than four values never give a trend |
| Explain.TrendDirection | backend/analytics/explain.py:81-92 | a detected trend is "up" exactly when the second half's mean exceeds the first half's, and "down" exactly when it is lower |
| Explain.Crossings | backend/analytics/explain.py:106-109 | there are fewer mean crossings than values |
| Explain.CrossingsOneSided | backend/analytics/explain.py:106-109 | a series that stays on one side of the mean never crosses it |
| Explain.DetectSeasonality | backend/analytics/explain.py:98-112 | seasonality needs at least six values and a positive sample variance, since crossing the mean needs values on both sides of it |
| Explain.CrossingsTwoSided | backend/analytics/explain.py:106-109 | a series that crosses the mean has values above it and values below it |
| Explain.ClassifyType | backend/analytics/explain.py:196-208 | "normal" exactly when the score is below 0.5; "trend" and "seasonal" only when their detector fires |
| Explain.ClassifyPrecedence | backend/analytics/explain.py:196-208 | the chain's order for a flagged series: a spike wins, a trend is reported only without a spike and whenever there is one, seasonality only without spike or trend, and spike is the fall-back when no detector fires |
| Explain.MeanConstant | backend/analytics/explain.py:191 | the mean of a constant series is that constant |
| Explain.ConstantFlaggedIsSpike | backend/analytics/explain.py:199-208 | no detector fires on a constant series, so a flagged one falls back to "spike" |
| Explain.Negate | backend/analytics/explain.py:186 | the mirrored series, value by value |
| Explain.SumNegate | backend/analytics/explain.py:191 | mirroring negates the sum |
| Explain.MeanNegate | backend/analytics/explain.py:191 | mirroring negates the mean |
| Explain.SumSqDevNegate | backend/analytics/explain.py:58 | mirroring series and centre keeps the squared deviations |
| Explain.VarianceNegate | backend/analytics/explain.py:58 | mirroring keeps the sample variance |
| Explain.MaxDevIndexNegate | backend/analytics/explain.py:66 | mirroring keeps the position of the peak |
| Explain.CrossingsNegate | backend/analytics/explain.py:106-109 | mirroring keeps the number of crossings |
| Explain.SpikeNegate | backend/analytics/explain.py:49-70 | mirroring keeps the spike verdict |
| Explain.TrendNegate | backend/analytics/explain.py:77-92 | mirroring flips the trend direction |
| Explain.SeasonalityNegate | backend/analytics/explain.py:99-112 | mirroring keeps the seasonality verdict |
| Explain.ClassifyMirror | backend/analytics/explain.py:196-208 | mirroring a series about zero changes no classification |
| Explain.SumSqDevConstant | backend/analytics/explain.py:58 | the squared deviations of a constant series |
| Explain.SpikeExample | backend/analytics/explain.py:196-208 | five steady readings and one jump are a spike, and a 0.9 score classifies them as "spike" |
| Explain.Render | backend/analytics/explain.py:120-129 | the only failures that escape `render` are a `TypeError` from `format` and the `IndexError` of a positional field; key and value errors give back the template |
| Explain.FillLiteral | backend/analytics/explain.py:120-127 | a template without fields renders to its own text |
| Explain.FillNoTypeError | backend/analytics/explain.py:120-127 | fields whose values are present never raise a `TypeError`, and fields named by keyword never raise an `IndexError` |
| Explain.FillUnknownKey | backend/analytics/explain.py:120-128 | a field naming an unsupplied key fails, and not with a `TypeError` |
| Explain.RenderUnknownKey | backend/analytics/explain.py:120-129 | a template of keyword fields naming an unsupplied key comes back unchanged |
| Explain.RenderPositional | backend/analytics/explain.py:120-129 | a positional field (`{}`, `{0}`) reached after literal text only makes `render` raise `IndexError`, since `render` passes keyword arguments only |
| Explain.RenderFullyStated | backend/analytics/explain.py:120-129 | a template of keyword fields always renders an explanation with baseline, observed and deviation present |
| Explain.GetTemplate | backend/analytics/explain.py:164-169 | the registered template, or a fall-back template of the asked type |
| Explain.UnregisteredType | backend/analytics/explain.py:164-169 | an unregistered type renders "Anomaly detected." |
| Explain.DefaultTemplate | backend/analytics/explain.py:133-161 | the registry's template for each label has that label as its type and names its fields by keyword |
| Explain.RegistryComplete | backend/analytics/explain.py:133-169 | every label has its own registered template of that type |
| Explain.DeviationPercent | backend/analytics/explain.py:194 | the deviation is (observed - baseline) / baseline * 100, and 0 for a zero baseline |
| Explain.Explain | backend/analytics/explain.py:180-222 | the default explanation for no values; otherwise the mean baseline, the first farthest value (`MaxDevIndex`), the deviation, the type `ClassifyType` chooses, the score as confidence, the severity, and as description what the registry's template for that type renders for the explanation |
| Explain.SeverityRule | backend/analytics/explain.py:217 | severity is the magnitude when present and non-zero, the score otherwise |
| Explain.CriticalIsFlagged | backend/analytics/explain.py:40-42 | a critical explanation is never "normal" |
| Explain.Explanation.IsCritical | backend/analytics/explain.py:40-42 | critical exactly when the severity is at least 0.7 and the confidence at least 0.6, both bounds inclusive |
| Explain.ResultSlot.constructor | backend/analytics/explain.py:180-184 | the slot holds the caller's result |
| Explain.WrittenBack | backend/analytics/explain.py:224-226 | the write-back changes only label and explanation, and nothing for an empty series |
| Explain.WrittenBackFacts | backend/analytics/explain.py:224-226 | the write-back keeps validity, makes `is_anomaly` agree with the 0.5 gate, leaves a second classification unchanged, and is idempotent |
| Explain.Classify | backend/analytics/explain.py:180-228 | returns the explanation and updates the caller's result in place |
| Explain.ClassifyBatch | backend/analytics/explain.py:230-235 | one explanation per result, in order, each result updated |
| Explain.ClassifyEach | backend/analytics/explain.py:230-235 | the batch loop returns the explanation of every original result in order, and afterwards every slot holds its written-back result |
| Explain.ClassifyNext | backend/analytics/explain.py:180-228 | one pass classifies the next slot from its original result; a slot sharing the same object sees the same, idempotent write-back |
| Explain.ExplainPrefixAt | backend/analytics/explain.py:230-235 | the k-th element of the batch list is the explanation of the k-th result |
| Scoring.MaxOf | backend/analytics/aggregation.py:117-118 | `max(scores)` is one of the scores and no score exceeds it |
| Scoring.MinOf | backend/analytics/aggregation.py:171 | the least element is one of the values and no value is below it |
| Scoring.InsertAsc | backend/analytics/aggregation.py:171 | insertion keeps ascending order and adds exactly the new value |
| Scoring.SortAsc | backend/analytics/aggregation.py:171 | `sorted`: ascending, and a permutation of the input |
| Scoring.PermutationWithin | backend/analytics/aggregation.py:171 | every value of a permutation lies between the minimum and the maximum |
| Scoring.Lerp | backend/analytics/aggregation.py:180-183 | the interpolation stays between its endpoints |
| Scoring.Rank | backend/analytics/aggregation.py:172 | the fractional rank lies in [0, n - 1], and is 0 for p = 0 and n - 1 for p = 100 |
| Scoring.Percentile | backend/analytics/aggregation.py:167-183 | 0.0 for no values; otherwise between the minimum and the maximum |
| Scoring.SortedLastIsMax | backend/analytics/aggregation.py:171 | the last sorted value is the maximum |
| Scoring.SortedFirstIsMin | backend/analytics/aggregation.py:171 | the first sorted value is the minimum |
| Scoring.PercentileExtremes | backend/analytics/aggregation.py:167-183 | the 100th percentile is the maximum and the 0th the minimum |
| Scoring.SortStrictlyAscending | backend/analytics/aggregation.py:171 | sorting values that are already strictly ascending leaves them in place |
| Scoring.PercentileExample | backend/analytics/aggregation.py:167-183 | the 95th percentile of 10, 20, 30, 40, 50 is 48: rank 3.8, interpolated between 40 and 50 |
| Aggregation.Scores | backend/analytics/aggregation.py:114 | the scores of the results, in order |
| Aggregation.CountAnomalies | backend/analytics/aggregation.py:136 | the number of results whose `is_anomaly` holds, at most one per result |
| Aggregation.WeightedMeanOf | backend/analytics/aggregation.py:149-164 | the weighted sum divided by the total weight, and 0.0 when the total weight is not positive |
| Aggregation.WeightedMean | backend/analytics/aggregation.py:149-164 | the accumulator loop computes `WeightedMeanOf` |
| Aggregation.WeightNonNegative | backend/analytics/aggregation.py:160 | a missing weight defaults to 1.0, so no weight is negative when none is configured negative |
| Aggregation.TotalWeightNonNegative | backend/analytics/aggregation.py:155-162 | the total weight is then non-negative |
| Aggregation.WeightedSumAbove | backend/analytics/aggregation.py:155-162 | scores of at least lo give a weighted sum of at least lo times the total weight |
| Aggregation.WeightedSumBelow | backend/analytics/aggregation.py:155-162 | scores of at most hi give a weighted sum of at most hi times the total weight |
| Aggregation.QuotientWithin | backend/analytics/aggregation.py:164 | bounds on a sum of t shares bound the quotient |
| Aggregation.WeightedMeanWithin | backend/analytics/aggregation.py:149-164 | the weighted mean stays within any bounds of the scores that include 0 |
| Aggregation.UnweightedTotals | backend/analytics/aggregation.py:158-162 | without configured weights the total weight is the count and the weighted sum is the plain sum |
| Aggregation.WeightedWithoutWeights | backend/analytics/aggregation.py:149-164 | without configured weights the weighted mean is the plain mean |
| Aggregation.Combine | backend/analytics/aggregation.py:239-246 | max, mean or p95 of the scores, with the weighted strategy falling back to max; always between the least and the greatest score |
| Aggregation.AggregateNode | backend/analytics/aggregation.py:100-147 | an empty list is an error, then a mixed-node list; otherwise the combined score with the node's identity, the number of metrics, and the number of anomalies |
| Aggregation.NodeAggregates | backend/analytics/aggregation.py:100-147 | valid results of one node and no negative weight always aggregate |
| Aggregation.NodeAggregateExample | backend/analytics/aggregation.py:56-62 | 0.8 (spike) and 0.3 (normal) under MAX give 0.8, two metrics and one anomaly |
| Aggregation.ValidChildrenBounded | backend/analytics/aggregation.py:237-246 | valid children's scores lie in [0,1] |
| Aggregation.Rollup | backend/analytics/aggregation.py:237-259 | valid children always roll up; the record carries the combined score, the child count and the summed anomaly counts |
| Aggregation.AggregateCluster | backend/analytics/aggregation.py:226-259 | an empty list, then a mixed list, are errors; the cluster record has no node id and carries the combined child scores, the strategy's name and the timestamp |
| Aggregation.AggregateTenant | backend/analytics/aggregation.py:328-357 | an empty list, then a mixed list, are errors; the tenant record has neither cluster nor node id and carries the combined child scores, the strategy's name and the timestamp |
| Aggregation.TiesAppend | backend/analytics/aggregation.py:276-280 | the ties of a concatenation are the concatenated ties |
| Aggregation.InsertDesc | backend/analytics/aggregation.py:276-280 | insertion keeps descending order and adds exactly the new node |
| Aggregation.InsertDescTies | backend/analytics/aggregation.py:276-280 | insertion puts the new node after the nodes of equal score |
| Aggregation.RankDesc | backend/analytics/aggregation.py:276-280 | `sorted(..., reverse=True)`: descending by score, and a permutation of the input |
| Aggregation.RankDescStable | backend/analytics/aggregation.py:276-280 | the sort is stable: nodes of equal score keep their input order |
| Aggregation.TakeTop | backend/analytics/aggregation.py:281 | `ranked[:top_n] if top_n else ranked`, including the negative slice |
| Aggregation.RankNodes | backend/analytics/aggregation.py:261-281 | descending, drawn from the input, all of it without a cut, the cut length otherwise |
| Aggregation.RankNodesStable | backend/analytics/aggregation.py:276-281 | without a cut, ranking reorders nothing of equal score |
| Aggregation.TopNodesOutrank | backend/analytics/aggregation.py:261-281 | kept nodes score no lower than any dropped one |
| Aggregation.Group | backend/analytics/aggregation.py:439-444 | a group is no longer than the input |
| Aggregation.GroupKeysExact | backend/analytics/aggregation.py:439-444 | the keys are distinct and are exactly the nodes that occur |
| Aggregation.GroupExact | backend/analytics/aggregation.py:439-444 | each group holds only its node's results, and is empty exactly when the node does not occur |
| Aggregation.GroupWellFormed | backend/analytics/aggregation.py:439-449 | the group of an occurring node is a non-empty one-node list, which is what the node aggregator demands |
| Aggregation.GroupsPartition | backend/analytics/aggregation.py:439-444 | the group sizes (and anomaly counts) add up to those of the input |
| Aggregation.GroupsAggregate | backend/analytics/aggregation.py:447-450 | valid results and no negative weight: every group aggregates |
| Aggregation.GroupMember | backend/analytics/aggregation.py:439-444 | every member of a group is an input result |
| Aggregation.NodeScores | backend/analytics/aggregation.py:447-450 | one node score per key |
| Aggregation.NodeScoresCount | backend/analytics/aggregation.py:447-450 | the node scores' anomaly counts add up to the groups' anomalies |
| Aggregation.NodeScoresShareCluster | backend/analytics/aggregation.py:447-450 | the node scores of one cluster's results are valid and share that cluster |
| Aggregation.ClusterRollupCounts | backend/analytics/aggregation.py:248-257 | rolling those up to the cluster keeps the total anomaly count of the raw results |
| Aggregation.NodeScoreAt | backend/analytics/aggregation.py:447-450 | the i-th node score is the aggregate of the i-th key's group |
| Aggregation.AggregateNodes | backend/analytics/aggregation.py:428-452 | the grouping loop and the scoring loop: keys in order of first appearance, each score what the node aggregator returns for its group, and otherwise the error of the first group in key order that fails, every earlier group aggregating |
| Aggregation.GroupByNode | backend/analytics/aggregation.py:439-444 | the grouping loop records each node key once, in order of first appearance, and files under it exactly that node's results, in order |
| Aggregation.GroupingStep | backend/analytics/aggregation.py:440-444 | one pass of the grouping loop keeps the grouping invariant for one more result |
| Aggregation.ScoreGroups | backend/analytics/aggregation.py:446-452 | the scoring loop succeeds exactly when every group aggregates, then maps each key to its group's score; otherwise it returns the error of the first failing key, every earlier key's group aggregating |
| Aggregation.ScoringStep | backend/analytics/aggregation.py:447-449 | one pass of the scoring loop keeps the scored-prefix invariant for one more key |
| Validator.Validation | backend/ingestion/validator.py:66-151 | valid exactly when there is no error; without data there are no warnings, and validity then needs complete identity, `allow_empty` and equal lengths |
| Validator.ValidationResult.Truthy | backend/ingestion/validator.py:23-25 | a result is truthy exactly when it is valid |
| Validator.CheckIdentity | backend/ingestion/validator.py:79-90 | the four missing-field checks, in order |
| Validator.ScanGaps | backend/ingestion/validator.py:125-135 | the gap loop yields the gap errors and the large-gap warnings |
| Validator.Validate | backend/ingestion/validator.py:66-151 | the rule-by-rule method returns `Validation` |
| Validator.DuplicatesIffRepeated | backend/ingestion/validator.py:121-123 | the duplicate warning is raised exactly when two positions hold the same timestamp |
| Validator.GapErrorsOnly | backend/ingestion/validator.py:134-135 | gap errors are all "not increasing", and there are none exactly when no consecutive gap is negative |
| Validator.GapWarningsExact | backend/ingestion/validator.py:129-133 | one warning per consecutive gap above the limit, carrying the gap and its two timestamps |
| Validator.SortedIffNoNegativeGap | backend/ingestion/validator.py:116-135 | timestamps are sorted exactly when no consecutive gap is negative |
| Validator.EarlyErrorKinds | backend/ingestion/validator.py:79-102 | the checks before the early return report only missing fields, empty data and length mismatches |
| Validator.OrderErrors | backend/ingestion/validator.py:116-135 | for series with data and the sort check on, the "not sorted" and "not increasing" errors each appear exactly when the timestamps are unsorted |
| Validator.FieldErrorCounts | backend/ingestion/validator.py:79-90 | one missing-field error per empty identity field |
| Validator.MissingFieldCounts | backend/ingestion/validator.py:79-151 | the final error list has exactly those missing-field errors |
| Validator.ErrorsSplit | backend/ingestion/validator.py:79-151 | the error list is the identity errors followed by errors of no missing-field kind |
| Validator.OtherErrorsKeepCounts | backend/ingestion/validator.py:92-135 | appending other kinds of error keeps the missing-field counts |
| Validator.ValueWarningRules | backend/ingestion/validator.py:137-145 | the percentage warning appears exactly for a usage/percent metric with a value outside [0,100]; the count/rate warning exactly for a count/rate metric with a negative value |
| Validator.MissingTenantExample | backend/ingestion/validator.py:79-81 | a series without a tenant id is rejected with exactly that error |
| Validator.PercentWarningExample | backend/ingestion/validator.py:137-140 | a usage metric of 150 is accepted with the percentage warning |
| Validator.ValidateBatch | backend/ingestion/validator.py:153-188 | the valid list, the invalid list and the log lines |
| Validator.BatchPartition | backend/ingestion/validator.py:166-188 | every series lands in exactly one of the two lists |
| Validator.BatchVerdicts | backend/ingestion/validator.py:173-182 | each list holds only series with its own verdict |
| Validator.MessageForShape | backend/ingestion/validator.py:173-186 | a series is logged exactly when it is rejected or has warnings, with one line carrying its position |
| Validator.BatchMessagesOrdered | backend/ingestion/validator.py:170-186 | the log lines come in input order, at most one per series |
| Validator.BatchMessagesFit | backend/ingestion/validator.py:176-186 | each log line carries its series' node, metric, and errors (when rejected) or warnings (when accepted) |
| Validator.IndexAfterAppend | backend/ingestion/validator.py:170-186 | the lines of a later series do not name an earlier position |
| Validator.BatchMessagesCover | backend/ingestion/validator.py:170-186 | exactly the reported series have a log line |
| Validator.ValidateTenantIsolation | backend/ingestion/validator.py:199-226 | the isolation result: its errors, valid exactly when there are none, and no warnings |
| Validator.IsolationExact | backend/ingestion/validator.py:215-220 | one error per series of another tenant, with its position and ids, and none exactly when all series belong to the tenant |
| Storage.Put | backend/storage/memory_storage.py:52 | the written key holds the new entry, every other key is unchanged, and the tenant level gains the key's tenant |
| Storage.Touch | backend/storage/memory_storage.py:80-86 | a failed lookup through the defaultdicts creates empty levels but no entry |
| Storage.LeafKeysExact | backend/storage/memory_storage.py:207-210 | the counted entries are exactly the keys whose lookup succeeds |
| Storage.PutLeafKeys | backend/storage/memory_storage.py:52 | writing adds exactly the written key to the entries |
| Storage.PutCount | backend/storage/memory_storage.py:52 | writing adds one entry exactly when the key was new |
| Storage.TouchCount | backend/storage/memory_storage.py:80-86 | a failed lookup adds no entry |
| Storage.AppendScore | backend/storage/memory_storage.py:143 | the score is appended to its tenant's list, other tenants unchanged |
| Storage.AppendCount | backend/storage/memory_storage.py:143 | appending adds one stored score |
| Storage.InMemoryStorage.Stats | backend/storage/memory_storage.py:197-224 | the four counts: tenant keys, metric entries, anomaly entries and stored scores; no tenant means no metric, no metric (anomaly) exactly when every lookup fails, and no stored score exactly when every tenant's list is empty |
| Storage.EntriesEmpty | backend/storage/memory_storage.py:218 | no score is stored exactly when every tenant's list is empty |
| Storage.Zip | backend/storage/memory_storage.py:92 | the aligned pairs, as many as the shorter list |
| Storage.Firsts | backend/storage/memory_storage.py:94 | the timestamps of the kept points |
| Storage.Seconds | backend/storage/memory_storage.py:95 | the values of the kept points |
| Storage.FilterComplete | backend/storage/memory_storage.py:92-95 | every point that passes the filter is kept |
| Storage.FilterKeepsAll | backend/storage/memory_storage.py:92-95 | when every point passes, all are kept |
| Storage.RangeQueryExact | backend/storage/memory_storage.py:88-95 | the query keeps exactly the stored points with start <= t <= end |
| Storage.RangeQueryStable | backend/storage/memory_storage.py:88-95 | a covering range returns everything, and filtering again changes nothing |
| Storage.PointsInRange | backend/storage/memory_storage.py:88-95 | the filtering loop keeps the timestamps and values of exactly the points with start <= t <= end, in order |
| Storage.InMemoryStorage.constructor | backend/storage/memory_storage.py:30-43 | all three tables start empty |
| Storage.InMemoryStorage.StoreMetric | backend/storage/memory_storage.py:45-52 | the series is filed under its own identity, replacing any earlier one; nothing else changes |
| Storage.InMemoryStorage.GetMetricSeries | backend/storage/memory_storage.py:54-111 | a missing key is "no data found" (after creating empty levels); an empty range is "no data in range"; otherwise the stored identity and metadata with the kept points |
| Storage.InMemoryStorage.StoreAnomalyResult | backend/storage/memory_storage.py:113-131 | the result is filed under the key the caller gives; nothing else changes |
| Storage.InMemoryStorage.StoreAggregatedScore | backend/storage/memory_storage.py:133-143 | the score is appended to its tenant's list; nothing else changes |
| Storage.FailedLookupAddsTenant | backend/storage/memory_storage.py:80-86 | a lookup on an empty store leaves one tenant counted and still no metric |
| Pipeline.IssueEntries | backend/ingestion/pipeline.py:124 | one log entry per validation error, in order |
| Pipeline.WarningEntries | backend/ingestion/pipeline.py:130-131 | one "WARNING:" entry per warning, in order |
| Pipeline.MessageEntries | backend/ingestion/pipeline.py:197 | one log entry per batch message, in order |
| Pipeline.IngestionStats.constructor | backend/ingestion/pipeline.py:19-30 | all counters start at zero with an empty log |
| Pipeline.IngestionStats.SuccessRate | backend/ingestion/pipeline.py:32-36 | 0.0 when nothing was collected; otherwise valid / collected, which lies in [0,1] when valid does not exceed collected |
| Pipeline.IngestionStats.RecordValidation | backend/ingestion/pipeline.py:119-131 | an invalid series counts one invalid and logs its errors; a valid one counts one valid and logs its warnings with the "WARNING:" prefix |
| Pipeline.RateWithin | backend/ingestion/pipeline.py:36 | a ratio v / c with 0 <= v <= c lies in [0, 1] |
| Pipeline.PutAllOther | backend/ingestion/pipeline.py:201-202 | storing a list leaves every key it does not mention unchanged |
| Pipeline.PutAllLast | backend/ingestion/pipeline.py:201-202 | storing a list files each series that no later series of the list replaces |
| Pipeline.StoredPrefix | backend/ingestion/pipeline.py:200-207 | the stored series are a prefix of the valid ones, shorter exactly when a store call fails |
| Pipeline.IngestionPipeline.constructor | backend/ingestion/pipeline.py:65-81 | the pipeline keeps its validator settings and optional storage |
| Pipeline.IngestionPipeline.IngestMetric | backend/ingestion/pipeline.py:83-142 | counters, log and storage after one metric: invalid ones are logged and not stored; valid ones log their warnings and are stored unless the store fails, which is logged |
| Pipeline.IngestionPipeline.IngestCluster | backend/ingestion/pipeline.py:144-209 | an isolation failure logs its errors and returns nothing; otherwise the batch counters add up to the collected count, the batch log is kept, and the valid series are stored, with all-or-nothing `total_stored` and a logged failure |
| Pipeline.IngestionPipeline.RecordBatch | backend/ingestion/pipeline.py:191-197 | the valid and invalid counts and the batch log |
| Pipeline.IngestionPipeline.StoreValid | backend/ingestion/pipeline.py:200-207 | the store loop files the stored prefix and sets the stored count to all or nothing |
| Pipeline.IngestionPipeline.StoreEach | backend/ingestion/pipeline.py:200-203 | the store loop raises exactly when a call inside the list fails, and files the series before that call |
| Pipeline.IngestionPipeline.StoreNext | backend/ingestion/pipeline.py:201-202 | one pass stores the next valid series on top of those already stored |
| Pipeline.IngestionPipeline.StatsSummary | backend/ingestion/pipeline.py:211-237 | six header lines, then (only with a non-empty log) the count line, at most the first five entries, and one "and k more" line when there are more than five |
| Generator.Direction | backend/simulator/generator.py:249 | "upward" exactly when the slope is positive, "downward" otherwise |
| Generator.InjectSpike | backend/simulator/generator.py:191-216 | an index past the end raises; otherwise exactly the points in [index, index + duration) are multiplied, identity and timestamps are kept, the tag is "spike", and the report holds the value at the index before and after |
| Generator.InjectTrend | backend/simulator/generator.py:230-252 | slope * (i - start) is added from the start on and nothing before; identity and timestamps are kept; the tag is "trend"; the direction is reported |
| Generator.InjectLevelShift | backend/simulator/generator.py:266-287 | the amount is added from the shift index on and nothing before; identity and timestamps are kept; the tag is "level_shift" |
| Generator.SpikeRaises | backend/simulator/generator.py:194-195 | a spike of magnitude at least 1 never lowers a non-negative value, and changes nothing outside its window |
| Generator.TrendGrowth | backend/simulator/generator.py:232-233 | the value at the start is unchanged; the added offset grows by the slope per point, strictly for an "upward" trend |
| Generator.ShiftSum | backend/simulator/generator.py:268-269 | a level shift adds the amount once per shifted point to the sum |
| Generator.ShiftMean | backend/simulator/generator.py:268-269 | a shift from the first point moves the mean by exactly the amount |
| Generator.TimestampSpacing | backend/simulator/generator.py:85-88 | the timestamps start at the start time, are one interval apart, and strictly increase for a positive interval |
| Generator.ClipRange | backend/simulator/generator.py:106-110 | clipped values lie in [0,100] for usage/percent metrics and are non-negative otherwise; values already in range stay |
| Generator.ClipIdempotent | backend/simulator/generator.py:106-110 | clipping twice is clipping once |
| Generator.Generate | backend/simulator/generator.py:85-123 | zero points fail the series' length check; otherwise the identity, spaced timestamps, clipped values and the simulator metadata |
| Generator.NoGapWarnings | backend/ingestion/validator.py:126-133 | gaps within the limit give no large-gap warning |
| Generator.GeneratedIsClean | backend/simulator/generator.py:85-123 | a generated series with its identity filled in and an interval of 1 s up to the gap limit passes validation with no errors and no warnings |

## Left out

- Floating point: values, scores and weights are `real`. Rounding, NaN and infinities are not modelled. This covers the NaN check of backend/ingestion/validator.py:113, `np.clip` on NaN, and `statistics.stdev` beyond its square.
- Explain.IsSpike: the square root in `statistics.stdev` is not computed. The z-score test is restated on squares, and `SpikeByZScore` proves the two agree for any standard deviation.
- Text formatting: `:.2f`, `:.1f` and `:.1%`, f-strings, and `"\n".join`.
  - Template rendering takes the number formatter as a parameter.
  - Log and summary lines are datatypes, not strings.
- Datetimes are whole seconds; `timedelta` arithmetic is integer arithmetic.
- The clock: the `datetime.utcnow()` and `datetime.now()` defaults are parameters.
- `InMemoryStorage.query_anomalies` (backend/storage/memory_storage.py:145-195): it fails on any stored result it reaches, since it reads a `timestamps` field that `AnomalyResult` does not have. It returns `[]` only when no stored result is reached (unknown tenant, or every cluster filtered out or empty).
- Storage.InMemoryStorage.Stats: `get_stats`'s counting loops are stated as the sizes of the entry sets (`LeafKeys`, `Entries`). The store methods do not restate the counts. `PutCount`, `TouchCount` and `AppendCount` give them.
- Randomness and numpy in the simulator are one input sequence: `_generate_baseline`, `_inject_spikes`, `_inject_trend`, `_add_seasonality`, `_add_noise`, and `generate_multi_node_scenario`.
- Generator.Generate: the metadata's `"config"` entry is an opaque string parameter. A negative `num_points` is not modelled; the count is a `nat`.
- Generator.InjectSpike, Generator.InjectTrend and Generator.InjectLevelShift take non-negative indices. With a negative start -k, Python's `range(-k, n)` first visits the last k positions and then every index from 0, so a trend or level shift changes the last k values twice; a spike multiplies from position n - k on and, when its duration exceeds k, also the first positions from 0.
- The collector (backend/ingestion/collector.py) is not part of this model. `ingest_metric` and `ingest_cluster` receive the collected series.
- Storage failures are inputs: `storeFails` for one metric, `failAt` for the position of the first failing call in a cluster. The exception text is one `StorageFailure` log entry.
- Pipeline.IngestionPipeline.IngestCluster: `ingest_cluster` is split into the helper methods `RecordBatch` and `StoreValid`; `validate` is split into `CheckIdentity` and `ScanGaps`. The overall behaviour is the same.
- The abstract engine registry (backend/analytics/engine.py), the abstract storage interface and its singleton (backend/storage/interface.py), and the stubs of backend/analytics/INTEGRATION_CONTRACT.py are not part of this model.
- Explain.Render: replacement fields are plain names with a format spec. Attribute and index fields (`{observed.real}`, `{x[0]}`), `!r`/`!s` conversions, nested specs and `{{`/`}}` escapes are not modelled; a positional index is recognised by ASCII digits only.
- Explain.Explain: the registry may not hold a template with a positional field, which would make `classify` raise `IndexError`. The class's own templates have none.
- `AnomalyExplanation.additional_context` is not modelled; it is always empty.
- Scoring.Percentile requires 0 <= p <= 100. The source only calls it with 95.
- `AggregatedAnomalyScore` is modelled with `aggregate_score` required. Python's dataclass rejects the declared field order.
- Windows.FullWindowCount follows the code: ⌊(L − W) / S⌋ + 1 windows without partial windows.
- Windows.TimeExtract: `include_partial_windows` of the time-based extractor is stored but never read, as in the source.

## Findings

| source | as written | input that shows it | evidently intended | confidence | as-written member | corrected member |
|---|---|---|---|---|---|---|
| backend/analytics/windows.py:226-261 | `TimeBasedWindowExtractor.__init__` stores `stride_duration or window_duration` without a check, and `extract` advances its cursor by that stride until it passes the last timestamp | `window_duration = timedelta(0)` and no stride, on any series whose first timestamp is before its last: the stride is 0, the cursor never moves, and `extract` never returns; a negative duration behaves the same | reject a non-positive stride at construction, as `SlidingWindowExtractor` does for its stride | high (not executed) | Windows.TimeLoopNeverEnds | Windows.NewTimeExtractor |
