# Days-to-hire statistics: the rebuild pipeline

This project models the statistics rebuild of the `home_task` service. `update_stats` empties the
`days_to_hire_stats` table. It then groups the job postings that have a `days_to_hire` value,
first by job and country and then by job alone. Every group with at least five samples becomes
one stats row. Each row holds the outlier-trimmed minimum, maximum and mean days to hire, plus the
number of postings in the group.

The model has eight modules, one per file:

- `wrappers.dfy` holds `Option`, `Result`, the two error kinds (`StatisticsError`,
  `StorageError`) and the `Outcome` of a statement that can raise.
- `sorting.dfy` models Python's `sorted` on integers: an insertion sort proved ascending and a
  permutation, plus the fact that the sorted order is unique.
- `quantiles.dfy` models `statistics.quantiles(data, n=10)` with its default `'exclusive'`
  method. For cut point `i` of a sorted sample `d` of length `L`, the upper neighbour's index
  `j = i * (L + 1) // 10` is clamped to `[1, L - 1]`, and the cut is
  `d[j-1] + (d[j] - d[j-1]) * delta / 10` with `delta = i * (L + 1) - 10 j`. When `j` was
  clamped, `delta` lies outside `0 .. 10` and the cut goes beyond its two neighbours, so with 2
  to 9 values the outer deciles lie outside the sample's range. A one-value sample gives nine
  copies of that value.
- `aggregator.dfy` models `calculate_stats`. Below the threshold it returns `None`. Otherwise the
  first and last decile bound the band, the sorted values inside the band are kept, and their
  mean is taken. All arithmetic is exact, on `int` and `real`.
- `stats_properties.dfy` holds the properties `calculate_stats` guarantees: what is trimmed and
  when, constant samples, and worked examples.
- `grouping.dfy` specifies the two `GROUP BY` queries by what their answers must satisfy:
  - the groups and their `HAVING count() >= 5` threshold;
  - the `ORDER BY` key order: strings in code-point order, and a NULL country after every
    country, as PostgreSQL's default `NULLS LAST` for ascending order places it;
  - the fact that the answer is fixed up to the order inside each `array_agg`.
- `stats_table.dfy` defines the stats rows one answer row inserts (`Inserted`), the rows a whole
  answer inserts (`ExpectedRows`) and the full snapshot (`Snapshot`). It also proves the
  snapshot's properties, including the duplicate-key finding below.
- `driver.dfy` models the database session and the two procedures:
  - The `Session` class holds `committed` (the durable table) and `working` (the table inside
    the open transaction).
  - It also holds a counter of issued statements, the set `faults` of statement numbers that
    raise, and a ghost log of the page offsets requested.
  - `ProcessChunk` (LIMIT/OFFSET paging with a commit after each page) and `UpdateStats`
    (truncate, commit, country pass, global pass; on failure roll back and re-raise) work on
    that class.

The paging and commit logic in `driver.dfy` never looks inside the statistics. Its methods are
therefore stated over a ghost per-row function `each`. The predicate `Computes(each)` makes
`each` agree with `Inserted` on every row. `UpdateStats` passes `Inserted` by default, and
`ComputesExpected` and `SnapshotOf` turn the results back into `ExpectedRows` and `Snapshot`.

A failed rebuild does not keep the prior snapshot: `update_stats` commits the `TRUNCATE` at
`home_task/cli.py:79-80`, and `process_chunk` commits every page at `home_task/cli.py:67`. The
rollback at `home_task/cli.py:117` therefore only discards the rows of the page being processed.
`Driver.UpdateStats` returns, as a ghost `Stage`, where the run stopped, and states what stays:
- a failure at the truncate or its commit leaves the old table;
- a failure in the country pass at the page with offset `o` (the last offset requested, a
  multiple of the page size 1000) leaves the rows of the country answer before `o`;
- a failure in the global pass at offset `o` leaves every country row followed by the rows of
  the global answer before `o`.

## Model

| member | source | states |
|---|---|---|
| Sorting.Sort | home_task/cli.py:24 | `sorted(values)`, by insertion: the result is ascending, a permutation of the input and of the same length |
| Sorting.SortedUnique | home_task/cli.py:24 | two ascending lists with the same multiset are equal, so the sorted order of a sample is unique |
| Sorting.SortPermutationInvariant | home_task/cli.py:24 | sorting two permutations of one sample gives the same list |
| Sorting.SortOfSorted | home_task/cli.py:24-25 | sorting an ascending list leaves it unchanged (`quantiles` re-sorts `sorted_values`) |
| Quantiles.CutPoint | home_task/cli.py:25 | defines cut point `i` of the exclusive method: upper neighbour `j = i * (L + 1) // 10` clamped to `1 .. L - 1`, interpolated with `delta = i * (L + 1) - 10 j`; its properties are the `Interpolate*`, `*Cut*` and `*Deciles*` lemmas |
| Quantiles.Deciles | home_task/cli.py:25 | `quantiles(data, n=10)` yields nine cut points |
| Quantiles.AllDecilesOfSorted | home_task/cli.py:25 | for two or more sorted values, decile `i` is the exclusive-method cut point `i + 1` |
| Quantiles.DecilesOfSingleton | home_task/cli.py:25 | a one-value sample has that value as first and last decile |
| Quantiles.InterpolateBetween | home_task/cli.py:25 | an interpolated cut between two neighbours lies between them |
| Quantiles.DecilesEncloseAValue | home_task/cli.py:25-26 | some sample value lies between the first and the last decile |
| Quantiles.OuterDecilesSmall | home_task/cli.py:25 | with 1 to 9 values the first decile is at most the minimum and the last at least the maximum |
| Quantiles.OuterDecilesLarge | home_task/cli.py:25 | with 10 or more values both outer deciles lie within `[minimum, maximum]` |
| Quantiles.ConstantDeciles | home_task/cli.py:25 | a constant sample has that constant as first and last decile |
| Quantiles.DecilesOfFive | home_task/cli.py:25 | for five sorted values the outer deciles extrapolate by 0.4 of the outer gaps |
| Quantiles.DecilesOneToFive | home_task/cli.py:25 | the deciles of `[1, 2, 3, 4, 5]` are `0.6, 1.2, ..., 5.4` |
| Aggregator.Filter | home_task/cli.py:26 | the kept multiset is exactly the in-band part of the input and every kept value lies in the band; a sorted input gives a sorted result, so on the sorted list `calculate_stats` filters, the result is exactly its in-band values in ascending order (unique by `Sorting.SortedUnique`) |
| Aggregator.CalculateStats | home_task/cli.py:11-33 | error iff the sample is empty and the threshold at most 0; `None` iff below the threshold; `job_postings_number == len(values)`; `min_days <= avg_days <= max_days` |
| Aggregator.TrimLow | home_task/cli.py:25-28 | defines `min_days` as `quantiles(sorted_values, n=10)[0]`; bounded by `Quantiles.OuterDecilesSmall`/`OuterDecilesLarge` |
| Aggregator.TrimHigh | home_task/cli.py:25-29 | defines `max_days` as `quantiles(sorted_values, n=10)[-1]`; bounded by the same lemmas |
| Aggregator.TrimmedNonEmpty | home_task/cli.py:25-26 | the filtered list is never empty, so `mean` never raises |
| Aggregator.Mean | home_task/cli.py:31 | defines `statistics.mean` exactly, as the sum over the length; `MeanWithin` and `MeanPermutation` state its properties |
| Aggregator.MeanWithin | home_task/cli.py:31 | the mean of values inside a band lies inside the band |
| Aggregator.SumPermutation | home_task/cli.py:31 | the sum of a sample does not depend on its order |
| Aggregator.MeanPermutation | home_task/cli.py:31 | the mean of a sample does not depend on its order |
| Aggregator.CalculateStatsPermutationInvariant | home_task/cli.py:11-33 | the statistics depend only on the multiset of the values, not on `array_agg`'s order |
| StatsProperties.TrimmedSample | home_task/cli.py:24-33 | computed stats come from a non-empty, sorted, in-band copy of the sample whose mean is `avg_days`; the count is the sample size |
| StatsProperties.ConstantSample | home_task/cli.py:11-33 | a constant sample `v` at the threshold yields `(v, v, v, len)` |
| StatsProperties.TenOnes | home_task/cli.py:11-33 | ten ones yield `(1.0, 1.0, 1.0, 10)` |
| StatsProperties.SmallSampleUntrimmed | home_task/cli.py:21-33 | with 1 to 9 values nothing is trimmed: `avg_days` is the mean of all values |
| StatsProperties.SmallSampleBand | home_task/cli.py:25-26 | with 1 to 9 values every value lies in the band |
| StatsProperties.KeepsEverything | home_task/cli.py:24-26 | a band holding every value keeps the whole sample |
| StatsProperties.BandHoldsAll | home_task/cli.py:24-26 | a band enclosing the sorted extremes encloses every value |
| StatsProperties.LargeSampleWithinRange | home_task/cli.py:25 | with 10 or more values some value is at most `min_days` and some value at least `max_days` |
| StatsProperties.FiveValueBand | home_task/cli.py:25 | the band of five values in terms of their sorted form |
| StatsProperties.OneToFive | home_task/cli.py:11-33 | `1..5` in any order yields `(0.6, 5.4, 3.0, 5)` |
| Grouping.KeyLess | home_task/cli.py:96-98 | defines the `order_by(standard_job_id, country_code)` order: job first in code-point order, then country with NULL last (the global query's `order_by(standard_job_id)` at line 112 is the same order on keys whose country is NULL); `KeyLessIrreflexive`, `KeyLessTransitive`, `KeyLessTotal` and `AscendingUnique` state that it is a strict total order fixing the answer's row order |
| Grouping.KeyLessTransitive | home_task/cli.py:95-98 | the `ORDER BY standard_job_id, country_code` order is transitive |
| Grouping.KeyLessTotal | home_task/cli.py:95-98 | that order is total on distinct keys |
| Grouping.AscendingUnique | home_task/cli.py:95-98 | two strictly ascending key lists with the same members are equal |
| Grouping.CountryCodeOf | home_task/cli.py:61 | defines `getattr(row, 'country_code', None)`: a country-level row's `country_code`, NULL for a global row, which has no such column |
| Grouping.Samples | home_task/cli.py:87-91 | defines `array_agg(days_to_hire)` of a group over the postings passing `WHERE days_to_hire IS NOT NULL`; `SampleHasPosting` and `NullGroupWithinGlobal` state its properties |
| Grouping.IsCountryQueryResult | home_task/cli.py:83-99 | defines a correct answer to `country_query`: country-level rows in `(standard_job_id, country_code)` order without repeats, each group's samples as its multiset, every group with at least five samples present; `ResultKeyIsGroup`, `QueryResultUnique` and `KeysDetermined` state its consequences |
| Grouping.IsGlobalQueryResult | home_task/cli.py:103-113 | defines a correct answer to `global_query` the same way, grouped and ordered by `standard_job_id` alone |
| Grouping.GroupOf | home_task/cli.py:91 | defines the `group_by` key of a posting: `(standard_job_id, country_code)` for the country query, `(standard_job_id, NULL)` for the global query's `group_by(standard_job_id)` at line 110; `SampleHasPosting`, `ResultKeyIsGroup` and `NullGroupWithinGlobal` state its properties |
| Grouping.SampleHasPosting | home_task/cli.py:83-93 | every aggregated sample comes from a posting of that group with a non-NULL `days_to_hire` |
| Grouping.ResultKeyIsGroup | home_task/cli.py:83-93 | every answer row is a group with at least five samples |
| Grouping.QueryResultUnique | home_task/cli.py:83-99 | two answers to one query agree row by row on key, row kind and sample multiset |
| Grouping.KeysDetermined | home_task/cli.py:103-113 | two answers to one query list the same keys in the same order |
| StatsTable.MakeRow | home_task/cli.py:57-63 | the inserted row's key is the answer row's job and its `country_code`, or NULL for a global row |
| StatsTable.Inserted | home_task/cli.py:56-64 | defines the rows inserted for one answer row: one `MakeRow` when `calculate_stats` returns statistics, none otherwise; `InsertedForRow` states it |
| StatsTable.Snapshot | home_task/cli.py:100-114 | defines the rebuilt table: the country answer's inserted rows followed by the global answer's; `SnapshotDetermined`, `SnapshotKeys` and `SnapshotKeysDistinct` state its properties |
| StatsTable.ExpectedRows | home_task/cli.py:55-64 | defines the rows the `for row in chunk` loop inserts over a whole answer: `Inserted` of each row, in answer order; `ExpectedRowsAppend`, `RowsWellFormed`, `ExpectedRowsReordered` and `OneRowPerGroup` state its properties, and `Driver.ComputesExpected` ties the driver to it |
| StatsTable.InsertedForRow | home_task/cli.py:55-64 | fewer than five samples insert nothing; otherwise exactly one row carrying that row's key and its statistics |
| StatsTable.FlatMapAppend | home_task/cli.py:55-64 | processing two answers one after the other inserts the rows of the first, then those of the second |
| StatsTable.ExpectedRowsAppend | home_task/cli.py:55-64 | the same for the rows `calculate_stats` inserts |
| StatsTable.RowsWellFormed | migrations/versions/b97077496e90_add_days_to_hire_stats_table.py:19-29 | every inserted row has `min_days <= avg_days <= max_days` and at least five postings |
| StatsTable.ExpectedRowsReordered | home_task/cli.py:55-64 | answers that differ only in the order inside each `array_agg` insert the same rows |
| StatsTable.OneRowPerGroup | home_task/cli.py:55-64 | an answer whose rows all have five samples inserts one row per answer row, keys in answer order |
| StatsTable.FlatMapSingles | home_task/cli.py:55-64 | a per-row step yielding one row each inserts the pointwise map |
| StatsTable.SnapshotDetermined | home_task/cli.py:83-113 | the rebuilt snapshot is determined by the postings, whatever answers the two queries return |
| StatsTable.NullGroupWithinGlobal | home_task/cli.py:83-93 | the samples of a job's NULL-country group are among those of its global group (multiset inclusion), so there are no more of them |
| StatsTable.NullCountryDuplicatesGlobal | home_task/cli.py:83-113 | as written: a NULL-country group of five or more samples puts the key `(job, NULL)` twice in the snapshot |
| StatsTable.NullCountryPostingsQualify | home_task/cli.py:83-93 | five NULL-country postings of one job form a reported country-level group |
| StatsTable.NullCountryExample | home_task/cli.py:83-113 | for those five postings every rebuilt snapshot repeats the key `("j", NULL)` |
| StatsTable.WithCountry | home_task/cli.py:83-93 | the corrected filter keeps exactly the postings with a country |
| StatsTable.IsIntendedCountryQueryResult | home_task/cli.py:83-99 | defines a correct answer to the corrected `country_query`: the same as `Grouping.IsCountryQueryResult` over the postings with a `country_code` (`WithCountry`), that is with `country_code IS NOT NULL` added; `IntendedKeysHaveCountry` and `SnapshotKeysDistinct` state its properties |
| StatsTable.IntendedKeysHaveCountry | home_task/cli.py:95-99 | with the corrected country query every country-level key names a country |
| StatsTable.SnapshotKeys | home_task/cli.py:99-114 | the snapshot's keys are the country answer's keys followed by the global answer's |
| StatsTable.SnapshotKeysDistinct | home_task/cli.py:83-113 | corrected: no two rows of the snapshot share a key |
| Driver.Page | home_task/cli.py:47-49 | `query.limit(k).offset(o)` is empty iff `k == 0` or `o` is past the end, and holds `min(k, len - o)` rows otherwise |
| Driver.PageElements | home_task/cli.py:47-49 | row `i` of that page is row `o + i` of the answer |
| Driver.PagedRows | home_task/cli.py:44-52 | defines the rows of the pages the `while True` loop fetches at offsets `o, o + k, ...` up to the first empty page; `PagedRowsFrom` and `PagedRowsAll` state that they are exactly the answer's rows |
| Driver.PagedRowsFrom | home_task/cli.py:44-68 | the pages from offset `o` of a positive size, up to the first empty one, hold exactly the answer's rows from `o`, in order |
| Driver.PagedRowsAll | home_task/cli.py:44-68 | paging with a positive size visits the whole answer; `LIMIT 0` visits nothing |
| Driver.PageOffsets | home_task/cli.py:44-52 | the requested offsets start at the first offset |
| Driver.PageOffsetsStep | home_task/cli.py:44-68 | pages are requested at `o, o + k, o + 2k, ...`; each page but the last is non-empty and the last is empty |
| Driver.ComputesExpected | home_task/cli.py:55-64 | a per-row function agreeing with `Inserted` inserts `ExpectedRows` for any answer |
| Driver.Session.constructor | home_task/cli.py:36 | a session over a table, with no statement issued and no page requested |
| Driver.Session.Issue | home_task/cli.py:47-80 | a statement raises exactly when its number is a fault; nothing else changes |
| Driver.Session.Truncate | home_task/cli.py:79 | `TRUNCATE` empties the transaction's table unless it raises |
| Driver.Session.Fetch | home_task/cli.py:47-49 | a page request is logged and returns the page, or raises |
| Driver.Session.Insert | home_task/cli.py:57-64 | an insert appends the row to the transaction's table unless it raises |
| Driver.Session.Commit | home_task/cli.py:67 | a commit makes the transaction's table durable unless it raises |
| Driver.Session.Rollback | home_task/cli.py:117 | a rollback restores the transaction's table to the durable one |
| Driver.InsertRow | home_task/cli.py:55-64 | one answer row: on success the table grows by `Inserted(row)`; a failure is a storage error and changes nothing |
| Driver.InsertRows | home_task/cli.py:55-64 | the rows of a page in order: the table grows by the rows of the first `done` of them, all of them on success |
| Driver.ProcessPage | home_task/cli.py:55-67 | a page's rows, then a commit: on success the durable table is the transaction's table |
| Driver.PageRows | home_task/cli.py:47-68 | the rows of a page continue the answer where the previous page stopped |
| Driver.NextPage | home_task/cli.py:46-68 | one loop turn: an empty page ends the loop and changes nothing; otherwise the page is processed and committed, and the next offset is `offset + chunk_size` |
| Driver.ProcessChunk | home_task/cli.py:36-68 | success iff no statement raises; offsets requested exactly `0, k, 2k, ...` up to the first empty page; with `k > 0` the rows of the whole answer are inserted and committed; with `LIMIT 0` nothing; on failure at the page with offset `o` (the last offset logged), the transaction holds an opening part of those rows and the durable table is the old one if `o == 0`, otherwise the old transaction followed by the rows of the answer before `o` |
| Driver.UpdateStats | home_task/cli.py:71-118 | success iff no statement raises, leaving exactly the snapshot committed and the page log extended by the country pass's offsets `0, 1000, ...` then the global pass's; on failure the transaction equals the durable table, and by `stage`: a failed truncate or commit leaves the old table and no page requested; a failed country pass leaves a prefix of the country offsets logged and the country rows before the last of them (a multiple of 1000 by `PageOffsetsStep`); a failed global pass leaves all country offsets plus a prefix of the global ones, and all country rows followed by the global rows before the last offset |
| Driver.FirstPassFailure | home_task/cli.py:96-100 | a country pass over the freshly truncated table that fails at offset `o` leaves exactly the rows of the country answer before `o` |
| Driver.SecondPassFailure | home_task/cli.py:103-114 | a global pass after the committed country rows that fails at offset `o` leaves those rows followed by the rows of the global answer before `o` |
| Driver.SnapshotOf | home_task/cli.py:100-114 | the rows of the country pass followed by those of the global pass are the snapshot |
| Driver.DurableBeforePage | home_task/cli.py:67-68 | defines what a pass leaves durable when the page at an offset fails: the starting table at offset 0, otherwise the rows of every earlier, committed page |
| Driver.PassPrefix | home_task/cli.py:67-68 | what a failed pass leaves durable is an opening part of what the whole pass would have committed |

## Left out

- `home_task/api.py`, the HTTP lookup, is not part of this model.
- The `id` column gets a fresh `uuid4` per row. Stats rows carry no id, and nothing in the model depends on it.
- Aggregator.CalculateStats: computes in exact `real` arithmetic. IEEE-754 rounding of `quantiles`, `mean` and `float()` is not modelled.
- Quantiles.Deciles: a one-value sample gives nine copies of the value, as `statistics.quantiles` does from Python 3.13 on. Earlier Python versions raise `StatisticsError` there. The difference only shows with a threshold of one or less, never with the default of five.
- Driver.InsertRow: treats the `StatisticsError` path of `calculate_stats` as inserting nothing. It cannot occur at the default threshold of five (`Aggregator.CalculateStats` errs only on an empty sample with a threshold of at most zero).
- The database answer to each query is a fixed sequence. Writes by other sessions between the paged `OFFSET` reads, which could skip or repeat groups, are not modelled.
- Concurrency and reader isolation are not modelled: no other session runs.
- `Driver.Session.Rollback` cannot fail. A failure is a statement number in `faults`; it always raises `StorageError`. The kind of database exception is not modelled.
- The `posting_count` column of both queries is never read by the code and is left out.
- `array_agg` returns each group's samples in an unspecified order. The model fixes one order and proves that every result depends only on the samples' multiset.
- `ORDER BY` on strings uses code-point order. Database collations are not modelled.
- `get_session` and the process wiring are outside the model.

## Findings

| source | as written | input that shows it | evidently intended | confidence | as-written member | corrected member |
|---|---|---|---|---|---|---|
| home_task/cli.py:83-99 | the country-level query groups by `country_code` without excluding NULL, so postings without a country form a country-level group keyed `(job, NULL)`, the same key as the job's global row | five postings of job `"j"` with `country_code` NULL and `days_to_hire` 1: both passes insert a row keyed `("j", NULL)` | the country-level pass covers only postings with a country, so every key in the table is unique and the lookup for `(job, NULL)` finds the global row | not executed | StatsTable.NullCountryExample | StatsTable.SnapshotKeysDistinct |
