# Outlier filter: labelling stage

A Dafny model of the outlier filter of a point-cloud library (`filters.outlier`).
The filter splits the point ids of a view into inliers and outliers. It uses one of
two criteria. The radius method keeps a point whose neighbour count within a
radius is strictly greater than `min_k`. The statistical method keeps a point whose
mean k-nearest-neighbour distance is strictly below `mean + multiplier * stdev`.
The filter then writes the noise class into the Classification of every outlier.
It falls back to returning the view unchanged when the method is unknown, when
nothing would be kept, or when nothing is an outlier.

The model is sequential. One worker drains the index queue that the source shares
among its threads. The spatial index is not modelled. Its answers are inputs, one
per point id (`Outlier.Neighbourhoods`): the radius neighbour count (which counts
the point itself), the mean neighbour distance, and the threshold.

Modules, leaf first:

- `Types` (`types.dfy`): the fixed-width integers of the configuration fields and
  the `size_t` cast; `Double`, which is a finite value or NaN; `Indices`, the pair of
  id lists; and the partition property that both classifiers promise, with its
  element-wise meaning.
- `CaseFold` (`case_fold.dfy`): case-insensitive matching of method names.
- `WorkQueue` (`index_queue.dfy`): the index queue as a class. A ghost record of
  the ids claimed so far shows that no id is handed out twice.
- `Points` (`point_view.dfy`): the point view, reduced to its Classification column.
- `Outlier` (`outlier_filter.dfy`): the filter class with its configuration fields,
  `Ready`, both classifiers, `Run`, and the lemmas about which exit a run takes.

## Model

| member | source | states |
|---|---|---|
| `Types.SizeTOf` | filters/OutlierFilter.cpp:136 | `size_t(m_minK)` is `m_minK` when it is not negative; a negative value wraps to `2^64 + m_minK`, which is at least `2^64 - 2^31` |
| `Types.Less` | filters/OutlierFilter.cpp:228 | the double comparison `<`: false when either side is NaN, and the comparison of the real values when both are finite |
| `Types.Iota` | filters/OutlierFilter.cpp:112-113 | the queue's initial contents: `np` ids with id `i` at position `i` |
| `Types.IotaCount` | filters/OutlierFilter.cpp:112-113 | each id below `np` occurs exactly once in the initial queue, and no other id occurs |
| `Types.PartitionFacts` | filters/OutlierFilter.cpp:110-147 | a partition of `[0, np)` has no repeated id in either list, only ids below `np`, and each id below `np` in exactly one list |
| `Types.PartitionFromMembership` | filters/OutlierFilter.cpp:226-234 | the converse: lists without repeats that place each id below `np` in exactly one list, and hold nothing else, are a partition |
| `Types.PartitionDeterminedByInliers` | filters/OutlierFilter.cpp:115-145 | two partitions that agree on which ids are inliers have the same lists up to order, so the thread schedule cannot change the classification |
| `WorkQueue.IndexQueue.constructor` | filters/OutlierFilter.cpp:112-113 | the queue starts as `0, 1, ..., np - 1` and nothing has been claimed |
| `WorkQueue.IndexQueue.Pop` | filters/OutlierFilter.cpp:123-130 | an empty queue reports "none" and means every id was claimed; otherwise the front id is removed and returned, and it is the next id in order, below `np` |
| `WorkQueue.ClaimedIsPrefix` | filters/OutlierFilter.cpp:121-130 | at any point of the drain, the claimed ids are exactly `0 .. k-1`, each once |
| `CaseFold.ToUpper` | filters/OutlierFilter.cpp:244 | upper-casing maps `a`..`z` to `A`..`Z` and leaves every other character alone |
| `CaseFold.Upper` | filters/OutlierFilter.cpp:244 | the folded string has the same length, and each character is the folded original |
| `CaseFold.IEquals` | filters/OutlierFilter.cpp:244-248 | the case-insensitive match used for method names: names of different lengths never match, and a name always matches itself |
| `CaseFold.IEqualsIsUpperEquality` | filters/OutlierFilter.cpp:244-248 | two names match ignoring case exactly when their upper-cased forms are equal |
| `Outlier.MethodOf` | filters/OutlierFilter.cpp:244-259 | the statistical method is chosen exactly when the name matches "statistical" ignoring case; the radius method exactly when it matches "radius"; otherwise the method is unrecognised |
| `Outlier.RadiusInlier` | filters/OutlierFilter.cpp:136 | `ids.size() > size_t(m_minK)`: for a `min_k` that is not negative, the count must be strictly greater than `min_k`, so a count equal to `min_k` is an outlier; for a negative `min_k`, the count must exceed `2^64 + min_k` |
| `Outlier.StatisticalInlier` | filters/OutlierFilter.cpp:228 | `distances[i] < threshold`: only finite values can pass; for finite values it is the strict comparison, so a distance equal to the threshold is an outlier |
| `Outlier.ExpectedDisposition` | filters/OutlierFilter.cpp:240-289 | the exit table `Run` is proved against: the empty-view exit exactly when the view is empty; the unrecognised-method exit exactly when the view is non-empty and the name matches neither method; "would remove all points" only when no point is an inlier; "no outliers" only when every point is |
| `Outlier.LabelsWrittenIff` | filters/OutlierFilter.cpp:240-280 | a run writes labels if and only if the view is non-empty, the method is known, and at least one point is an inlier and at least one an outlier |
| `Outlier.NegativeMinKRejectsAll` | filters/OutlierFilter.cpp:136-139 | with the radius method and a negative `min_k`, no count below `2^64 - 2^31` passes the cast comparison, so the run takes the "would remove all points" exit |
| `Outlier.NaNThresholdRejectsAll` | filters/OutlierFilter.cpp:221-232 | with the statistical method and a NaN threshold, such as the `0/0` variance for a single point gives, every point is an outlier and the run takes the "would remove all points" exit |
| `Outlier.ZeroMinKKeepsAll` | filters/OutlierFilter.cpp:136-139 | radius counts include the point itself, so each is at least 1; with `min_k = 0` every point is an inlier and the run takes the "no outliers" exit |
| `Outlier.OutlierFilter.constructor` | filters/OutlierFilter.cpp:67-73 | the defaults: method "statistical", `min_k` 2, radius 1.0, `mean_k` 8, multiplier 2.0, class Low Point (7), 1 thread |
| `Outlier.OutlierFilter.Ready` | filters/OutlierFilter.cpp:81-101 | afterwards the thread count is exactly 1 if it was 0 (which raises the first warning) and is unchanged otherwise, so it is at least 1; a count above the hardware concurrency only raises the second warning |
| `Outlier.OutlierFilter.ProcessRadius` | filters/OutlierFilter.cpp:103-148 | the lists partition `[0, np)`, with each id claimed from the queue exactly once; id `i` is an inlier if and only if its count is strictly greater than `size_t(min_k)`, so a count equal to `min_k` is an outlier |
| `Outlier.OutlierFilter.ProcessStatistical` | filters/OutlierFilter.cpp:150-235 | the lists partition `[0, np)`; id `i` is an inlier if and only if its mean distance is strictly below the threshold; both lists are strictly ascending |
| `Outlier.OutlierFilter.GatherDistances` | filters/OutlierFilter.cpp:159-206 | the queue is drained, and each id's slot in the zero-filled distance vector ends up holding that id's mean distance |
| `Outlier.OutlierFilter.SplitAtThreshold` | filters/OutlierFilter.cpp:226-234 | visiting ids in ascending order gives a partition in which `i` is an inlier if and only if `distances[i] < threshold` (false for NaN); both lists are strictly ascending |
| `Outlier.OutlierFilter.Run` | filters/OutlierFilter.cpp:237-292 | for a filter that has been made ready (at least one thread), the exit taken is the one `ExpectedDisposition` gives. An empty view gives an empty view set; every other exit gives exactly `{view}`. Only on the labelling exit does any Classification change: every outlier gets the noise class, and every inlier keeps its old value |
| `Outlier.OutlierFilter.LabelOutliers` | filters/OutlierFilter.cpp:275-277 | each listed outlier's Classification becomes the noise class; every other point keeps its value |
| `Points.PointView.SetClassification` | filters/OutlierFilter.cpp:277 | one point's Classification is written, and no other point's |

Behaviour of the code worth noting:

- An empty view yields an empty view set, not a set holding the view (filters/OutlierFilter.cpp:240-241).
- `min_k` is a signed `int` compared after a cast to `size_t` (filters/OutlierFilter.cpp:136). Negative values are accepted and wrap (`Types.SizeTOf`); they are not rejected.
- `Run` checks the method before running a classifier. An unknown name never reaches the "would remove all points" check (filters/OutlierFilter.cpp:244-268).

## Left out

- The thread pool, both pairs of mutexes and the scheduling are replaced by one sequential worker. They add concurrency only. `Types.PartitionDeterminedByInliers` states why the outcome does not depend on the schedule.
- Outlier.OutlierFilter.Run: requires at least one thread, as do `ProcessRadius` and `ProcessStatistical`. `Ready`, which the framework runs before `run`, guarantees that. A run with a thread count of 0 is not modelled. The loop at filters/OutlierFilter.cpp:119 would then add no worker and the queue would never be drained. Both radius lists would stay empty, and the run would take the "would remove all points" exit.
- Outlier.OutlierFilter.ProcessRadius: states its lists only up to order, as sets and multisets. One sequential worker would produce them ascending. Under several threads the source leaves the order unspecified.
- The spatial index (`KD3Index` construction, the `radius` and `knnSearch` queries) is not modelled. Its answers are inputs in `Outlier.Neighbourhoods`. The index is a foreign library.
- The per-point running mean with `std::sqrt`, and the Welford mean and variance with the final `sqrt`, are not modelled. They are floating-point arithmetic. `Neighbourhoods.threshold` stands for their result. With one point the source's variance is `0/0`, a NaN. `Outlier.NaNThresholdRejectsAll` shows where that leads.
- Doubles are modelled only as "finite real or NaN". Rounding, infinities and signed zeros are not modelled. The comparison at the threshold is the only floating-point operation the model keeps.
- Logging is not modelled as output. `Ready` returns its two warnings as booleans. `Run` returns which exit it took as a `Disposition`. Every exit except the empty-view exit writes a log message.
- Plugin registration, `getName`, `addArgs` option parsing and `addDimensions` are framework plumbing. Their only modelled effect is the default field values in the constructor.
- `Utils::iequals` is defined outside filters/OutlierFilter.cpp. `CaseFold` assumes its behaviour: equal lengths, and C-locale `toupper` equality per character.
- `ClassLabel::LowPoint` is defined outside filters/OutlierFilter.cpp. The model assumes its value is 7, the ASPRS "Low Point (noise)" class (`Outlier.LOW_POINT`).
- The fields `radius`, `mean_k` and `multiplier` are kept, but only the spatial index and the threshold use them, and both lie outside the model.
- Point ids and neighbour counts are unbounded naturals. `size_t` overflow of a count cannot happen for a real view.
- An exception thrown by the spatial index or a worker is not modelled. No error path is modelled beyond the exits of `Run`.
