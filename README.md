# Feature combinations and the feature-engineering cache

This project is a Dafny model of the data-preparation core of a trading
research codebase. The core has three parts:

- **The combination generator** (`AbstractDataProcessor.get_feature_combinations`).
  It splits raw feature strings on commas, flattens the pieces in order and
  emits every non-empty combination of them. All size-1 combinations come
  first, then size 2, and so on, each size in `itertools.combinations` order.
- **The engineering loop** (`DataProcessor.perform_feature_engineering`).
  For each combination it asks an external feature calculator for frames.
  It merges them side by side, drops repeated column names, cuts each name
  to its first word and scales the values. A failing combination is skipped.
  The method returns all generated combinations together with the datasets
  of those that succeeded.
- **The cache-reconciliation engine** (`FeatureEngineering`). It loads a
  snapshot of previously engineered combinations and compares it with the
  required ones. It has the processor engineer the missing combinations,
  merges the results or replaces the saved ones, and writes the result back.

Modules:

- `Py` covers the Python semantics the code relies on:
  - a raised exception is `None`;
  - `str.split(',')` keeps empty pieces;
  - `str.split()[0]` uses Python's whitespace set and raises on a blank
    string;
  - a string never equals a tuple.
- `Lists` covers list lookup and comprehensions:
  - `list.index` (first occurrence) and the last occurrence;
  - order-preserving removal of repeats;
  - filtering by membership in another list.
- `Combinations` covers `itertools.combinations` as a recursive function,
  the same thing at the level of index tuples, and counting with binomial
  coefficients.
- `AbstractDataProcessor` is the processor base class: its `dataSource`
  field and the generator loop.
- `DataProcessor` is the per-combination loop. A frame is its column labels
  and its set of row labels, and a normalised dataset is its column names
  and row count. The feature calculator is a function parameter that may
  fail.
- `FeatureEngineering` is the engine. It is generic in the dataset type.
  - The processor's engineering method is an abstract `Adapter`, and a tag
    records whether the processor is an `NZDataProcessor`.
  - The snapshot file is the `store` field.
  - Whether a save succeeds is a parameter of the save.
- `Pipeline` plugs a plain `DataProcessor` into the engine as its adapter.

Behaviours of the code as written, proved as they are:

- Without saved datasets, any saved combination that is still required
  makes `saved_data[index]` raise. That branch therefore never merges a
  saved entry (`FeatureEngineering.MergeBranch`).
- When the required combinations are tuples, as the generator makes them,
  a plain `DataProcessor` calls `split` on each tuple it receives. So as
  soon as one required combination is missing from the cache, the pass
  raises and returns `([], [])` (`Pipeline.TupleWorkBreaksPass`).
- When everything required is already cached, a plain processor reports
  nothing. The pass then returns an empty pair and saves it over the
  snapshot (`Pipeline.FullyCachedPassIsEmpty`).
- After a merging pass that covered every required combination, the next
  pass has an empty work list and replaces the whole cache with whatever
  the processor reports for an empty request
  (`FeatureEngineering.SecondPass`).
- After a failed combination, `zip` pairs the later datasets with the wrong
  combinations (`Pipeline.MisalignedAfterFailure`).
- Cutting column names to their first word can make names repeat.
  `df_merged_unique` is computed but never used, so the repeats stay
  (`DataProcessor.RenamedNamesMayRepeat`).

## Model

| member | source | states |
|---|---|---|
| AbstractDataProcessor.AbstractDataProcessor.constructor | AbstractDataProcessor.py:7-8 | the new processor holds the given data source |
| AbstractDataProcessor.AbstractDataProcessor.SetData | AbstractDataProcessor.py:10-11 | replaces the data source and may change nothing else |
| AbstractDataProcessor.AbstractDataProcessor.GetFeatureCombinations | AbstractDataProcessor.py:15-36 | both loops (split-and-extend, then sizes 1 to n) compute exactly `FeatureCombinations`: the full combination list, or failure when some feature is not a string |
| AbstractDataProcessor.FeatureCombinations | AbstractDataProcessor.py:15-36 | expansion fails exactly when some feature is not a string; otherwise there are `2^m - 1` combinations, m being the number of comma-separated pieces |
| AbstractDataProcessor.CombinationsBySize | AbstractDataProcessor.py:25-30 | the loop over sizes 1 to n collects exactly `AllCombinations`, every size-r combination of the tokens before every size-(r+1) one |
| AbstractDataProcessor.ProcessedFeatures | AbstractDataProcessor.py:17-19 | processing fails exactly when some feature is a tuple (no `split`) |
| AbstractDataProcessor.Extend | AbstractDataProcessor.py:19 | one `extend(feature.split(','))` step fails exactly when the list so far has failed or the feature is a tuple; otherwise it keeps the list so far as a prefix and adds one token more than the feature has commas |
| AbstractDataProcessor.ProcessedFeaturesAppend | AbstractDataProcessor.py:17-19 | the processed tokens of a concatenation are the in-order concatenation of the parts' tokens |
| AbstractDataProcessor.ProcessedFeaturesLength | AbstractDataProcessor.py:17-19 | each string contributes its number of commas plus one tokens (empty pieces and repeats kept) |
| AbstractDataProcessor.CommaJoinedIsSplit | AbstractDataProcessor.py:17-19 | `["x,y"]` and `["x", "y"]` give the same tokens |
| Py.Split | AbstractDataProcessor.py:19 | `split(sep)` yields one piece more than there are separators, and no piece contains the separator |
| Py.JoinSplit | FeatureEngineering.py:150 | joining the pieces of `s.split(sep)` with `sep` gives `s` back |
| Py.SplitAround | AbstractDataProcessor.py:19 | a separator between two texts splits them apart and changes nothing else |
| Py.FirstWord | dataProcessor.py:73 | `s.split()[0]` fails exactly on an all-whitespace string; otherwise it is a non-empty run without whitespace |
| Py.FirstWordOf | dataProcessor.py:73 | leading whitespace is skipped and the word ends at the next whitespace or the end |
| Combinations.Choose | AbstractDataProcessor.py:26 | every size-k combination has length k |
| Combinations.ChooseCount | AbstractDataProcessor.py:26 | there are `Binom(n, k)` size-k combinations |
| Combinations.AllCombinations | AbstractDataProcessor.py:25-27 | every combination has between 1 and n tokens; the count `2^n - 1` is in `AllCombinationsCount`, the size order in `LevelsSizes`, and the exact index selections in `AllCombinationsAreIndexSelections` |
| Combinations.AllCombinationsCount | AbstractDataProcessor.py:25-27 | n tokens give `2^n - 1` combinations, and none when there are no tokens |
| Combinations.LevelsSizes | AbstractDataProcessor.py:25-27 | sizes run from 1 to n and never decrease along the list, so every size-r combination precedes every size-(r+1) one |
| Combinations.ChooseIsPick | AbstractDataProcessor.py:26 | each size-k combination is the tokens at an index-increasing selection, selections taken in `ChooseIndices` order |
| Combinations.ChooseIndicesSorted | AbstractDataProcessor.py:26 | within one size the index tuples are strictly increasing in lexicographic order |
| Combinations.ChooseIndicesComplete | AbstractDataProcessor.py:26 | every increasing index tuple of the size appears |
| Combinations.AllCombinationsAreIndexSelections | AbstractDataProcessor.py:25-27 | the whole output is the tokens at increasing index selections of lengths 1 to n: every such selection occurs exactly once, in strict size-then-lexicographic order |
| Lists.FirstIndex | FeatureEngineering.py:116 | `list.index` gives the first position holding the value |
| Lists.Distinct | dataProcessor.py:71 | keeps every value once: no repeats, same members |
| Lists.DistinctFirstOccurrenceOrder | dataProcessor.py:71 | the kept values are in the order of their first occurrence |
| Lists.Filter | FeatureEngineering.py:160-163 | keeps exactly the elements whose membership in the other list matches |
| Lists.FilterMultiplicity | FeatureEngineering.py:160-163 | a kept value is kept as often as it occurs; the others not at all |
| Lists.FilterAppend | FeatureEngineering.py:160-163 | filtering keeps the original order |
| DataProcessor.Concatenated | dataProcessor.py:57-60 | every frame's rows are in the merge |
| DataProcessor.ConcatenatedIndex | dataProcessor.py:57-60 | every merged row comes from some frame |
| DataProcessor.ConcatenatedColumns | dataProcessor.py:58 | the merged columns are those of the frames, side by side in order |
| DataProcessor.RenamedColumns | dataProcessor.py:73-75 | renaming fails exactly when some name has no word; otherwise each column becomes the first word of its name |
| DataProcessor.ProcessFrames | dataProcessor.py:57-97 | a processed merge is empty in both dimensions (`pd.DataFrame()`) or in neither, and never has more rows than the merged frames |
| DataProcessor.ProcessCombination | dataProcessor.py:50-97 | a combination for which the calculator raises gives no dataset; otherwise the outcome is `ProcessFrames` of its frames, whose columns and rows `ProcessFramesColumns` states |
| DataProcessor.PerformFeatureEngineering | dataProcessor.py:21-114 | the loop returns exactly `EngineeringResult`: failure when expansion raises; all combinations with no datasets when the calculator cannot be built; otherwise all combinations and the in-order datasets of the successful ones |
| DataProcessor.NormalizeCombination | dataProcessor.py:47-97 | one pass of the `try` body gives exactly `ProcessCombination`: failure when the calculator or a column rename raises, the empty dataset when the merge has no columns or no rows, otherwise the renamed first-occurrence columns over the merged rows |
| DataProcessor.NormalizedDataList | dataProcessor.py:46-107 | the loop appends at most one dataset per combination |
| DataProcessor.EngineeringResult | dataProcessor.py:21-114 | the method fails exactly when some feature is a tuple; otherwise it returns the full expansion and no more datasets than combinations |
| DataProcessor.NormalizedDataListAppend | dataProcessor.py:46-107 | datasets are appended in combination order |
| DataProcessor.NormalizedDataListSingle | dataProcessor.py:47-107 | one combination adds one dataset when it succeeds and none when it raises |
| DataProcessor.NormalizedDataListComplete | dataProcessor.py:46-107 | as many datasets as combinations exactly when no combination fails |
| DataProcessor.NormalizedDataListAligned | dataProcessor.py:46-97 | with no failures the i-th dataset is the i-th combination's |
| DataProcessor.SkipsFailedCombination | dataProcessor.py:105-107 | a failing middle combination is skipped and the neighbours keep their datasets and order |
| DataProcessor.EmptyMergeGivesEmptyDataset | dataProcessor.py:57-88 | no frames, or frames without rows, still append an empty dataset |
| DataProcessor.ConcatenatedNoRows | dataProcessor.py:57-60 | merging frames without rows gives no rows |
| DataProcessor.ProcessFramesColumns | dataProcessor.py:71-97 | processing fails exactly when a merged name has no word; a non-empty result has one column per distinct merged name, in first-occurrence order, cut to its first word, and the merged row count |
| DataProcessor.RenamedNamesMayRepeat | dataProcessor.py:73-83 | `"a x"` and `"a y"` both become `"a"` and both stay |
| DataProcessor.EngineeringResultShape | dataProcessor.py:37-114 | the returned combination list is the full expansion whatever fails; datasets never outnumber it, and match it exactly when the calculator is built and no combination fails |
| FeatureEngineering.Request | FeatureEngineering.py:43-53 | the processor gets exactly the work list and the engine's period, through the with-params variant exactly for an `NZDataProcessor` |
| FeatureEngineering.Normalize | FeatureEngineering.py:148-152 | every saved key becomes a tuple; tuples are unchanged; a string's pieces join back to it |
| FeatureEngineering.NormalizeSaved | FeatureEngineering.py:148-152 | the normalised list has the saved list's length and holds each saved key converted by `Normalize`, so every entry is a tuple (an empty list stays empty) |
| FeatureEngineering.IsCacheEmptyBranch | FeatureEngineering.py:166-167 | the two-disjunct branch test holds exactly when no dataset is saved |
| FeatureEngineering.WorkList | FeatureEngineering.py:160-163 | the work list is no longer than the required list and holds only required combinations that are not saved; `WorkListIsDifference` gives the exact difference with multiplicities |
| FeatureEngineering.WorkListIsDifference | FeatureEngineering.py:160-163 | the work list holds exactly the required combinations not saved, each as often as required; it is empty exactly when everything required is saved |
| FeatureEngineering.WorkListAppend | FeatureEngineering.py:160-163 | the work list keeps the required order |
| FeatureEngineering.Retained | FeatureEngineering.py:103-119 | a successful retention pairs each kept combination with one dataset and keeps exactly the saved combinations that are still required |
| FeatureEngineering.FeatureEngineering.ProcessCombinations | FeatureEngineering.py:103-119 | the loop returns exactly `Retained`: in saved order, the saved combinations still required, each with the saved dataset at its first saved position, or failure when such a position is missing |
| FeatureEngineering.RetainedFails | FeatureEngineering.py:114-119 | the retained pairs fail exactly when a still-required saved combination first occurs past the saved datasets; otherwise both lists have equal length |
| FeatureEngineering.RetainedWithoutData | FeatureEngineering.py:116-118 | with no saved datasets the step fails exactly when some saved combination is required, and otherwise retains nothing |
| FeatureEngineering.DeduplicateByKey | FeatureEngineering.py:214-218 | filling the dictionary over `zip` yields exactly `Deduplicated` |
| FeatureEngineering.TupleKey | FeatureEngineering.py:216 | `tuple(comb)` is a tuple: a tuple stays as it is and a string becomes the tuple of its one-character strings |
| FeatureEngineering.ZippedKeys | FeatureEngineering.py:215 | `zip` yields `min(|combinations|, |datasets|)` keys, the i-th being `tuple(combinations[i])` |
| FeatureEngineering.Deduplicated | FeatureEngineering.py:214-218 | the dictionary has no key twice and one dataset per key |
| FeatureEngineering.DeduplicatedSpec | FeatureEngineering.py:214-218 | keys are unique, one value per key, exactly the zipped `tuple(comb)` keys, and each value is the dataset of the key's last zipped occurrence |
| FeatureEngineering.DeduplicatedOrder | FeatureEngineering.py:215-217 | keys are in order of first insertion |
| FeatureEngineering.ZipTruncates | FeatureEngineering.py:215 | only the first `min(|combinations|, |datasets|)` pairs take part |
| FeatureEngineering.LastWriteWins | FeatureEngineering.py:216 | a key written twice keeps the second dataset at the first position |
| FeatureEngineering.StringKeyMeetsCharacterTuple | FeatureEngineering.py:216 | `tuple("ab")` and `("a", "b")` are the same key |
| FeatureEngineering.FeatureEngineering.ProcessAndSaveCombinations | FeatureEngineering.py:123-254 | a raising pass returns `([], [])` and leaves the snapshot alone; otherwise it returns the `Reconcile` pair and saves exactly that pair, overwriting the snapshot |
| FeatureEngineering.Reconcile | FeatureEngineering.py:123-246 | a successful pass without saved datasets returns unique keys and one dataset per key |
| FeatureEngineering.ReplaceBranch | FeatureEngineering.py:222-246 | with saved datasets the pass is exactly the processor's output for the work list |
| FeatureEngineering.MergeBranch | FeatureEngineering.py:166-221 | without saved datasets the pass fails when a saved combination is still required, and otherwise is the dictionary built from the processor's output alone |
| FeatureEngineering.MergeBranchUnique | FeatureEngineering.py:200-218 | a successful merge has unique tuple keys and one dataset each |
| FeatureEngineering.SecondPass | FeatureEngineering.py:160-246 | when a merging pass returns datasets and covers every required combination, the next pass on its result has an empty work list and returns exactly the processor's output for an empty request |
| FeatureEngineering.FeatureEngineering.LoadResults | FeatureEngineering.py:56-70 | returns the pickled pair, or `([], [])` when the file is missing or unreadable |
| FeatureEngineering.Loaded | FeatureEngineering.py:63-70 | loading gives `([], [])` exactly when the file is missing, unreadable, or holds an empty pair; `SaveLoadRoundTrip` relates it to saving |
| FeatureEngineering.FeatureEngineering.SaveResults | FeatureEngineering.py:73-101 | the snapshot becomes the pair when the write succeeds, stays when `open` fails, and becomes unreadable when the dump fails part-way |
| FeatureEngineering.AfterSave | FeatureEngineering.py:92-101 | a successful dump leaves a pickled file that loads back as the pair; a failed `open` leaves the file as it was; a dump that fails part-way leaves a file that exists but cannot be read |
| FeatureEngineering.FeatureEngineering.constructor | FeatureEngineering.py:13-23 | the engine holds its file, processor, period and the file's current contents |
| FeatureEngineering.SaveLoadRoundTrip | FeatureEngineering.py:63-101 | loading after a successful save gives the saved pair back; after a failed dump it gives `([], [])`; after a failed open it gives what was there |
| Pipeline.TupleWorkBreaksPass | FeatureEngineering.py:180-181 | with tuple combinations and a plain processor, any uncached required combination makes the pass fail |
| Pipeline.AsTuples | AbstractDataProcessor.py:26 | the generator's combinations, as `itertools.combinations` yields them, are one tuple per combination, in order, holding its tokens |
| Pipeline.PlainAdapter | FeatureEngineering.py:43-53 | a plain processor rejects the five-argument with-params call (`TypeError`); the two-argument call fails exactly when `perform_feature_engineering` does and otherwise returns its combinations as tuples with its datasets |
| Pipeline.FullyCachedPassIsEmpty | FeatureEngineering.py:222-246 | a fully cached pass with saved datasets and a plain processor returns `([], [])` |
| Pipeline.MisalignedAfterFailure | FeatureEngineering.py:200-218 | when the first of two combinations fails, the merge files the second's dataset under the first |
| Pipeline.AlignedWithoutFailure | FeatureEngineering.py:215 | with no failures, every combination is zipped with its own dataset |

## Left out

- Numeric contents are not modelled. This covers `convert_dataframe`, the
  `MinMaxScaler` values, `fillna(0)` and the `.T.duplicated()` check on
  values. A dataset is its column names and row count; the scaler is treated
  as a transform that keeps the shape.
- Duplicate row labels are not modelled: a frame's row labels are a set.
  The outer join of `pd.concat(axis=1)` is modelled as the union of the row
  labels.
- Which feature calculator is built, and what it computes, are not
  modelled. `FeatureCalculator`, `NZDataProcessor` and
  `NzFeatureCalculator` are not part of this model. The calculator is a
  parameter that may fail on construction or per combination, and the
  engine's processor is an abstract adapter plus a kind tag.
- The engine constructor's calculator selection and its `set_data` call
  (FeatureEngineering.py:30-41) are not modelled: they only wire up external
  classes whose results the core never reads.
- `convert_to_serializable` is not modelled: its result is discarded, and
  the unconverted data is what gets pickled.
- pickle and the file system are abstracted as the `store` field: a
  missing file, an unreadable file, or a pickled pair. The success of a save
  is the `SaveOutcome` parameter.
- Logging, prints, the duplicate-column warning, the NaN and head debug
  loops, timing, `tqdm`/`psutil`, and the unused `feature_params` are not
  modelled. The `feature_params` line (dataProcessor.py:101) runs after the
  dataset is appended at line 88 or 97, so if it raised, the combination
  would keep its dataset. `ProcessCombination` also gives a dataset there,
  so the list of datasets is the same; only the error log is not modelled.
- `config`, `start_date` and `end_date` are opaque strings passed through
  unchanged.
- Any exception is modelled as a single failure value, without its type or
  message.
- `FeatureEngineering.FeatureEngineering.PerformEngineeringWithParams`,
  `FeatureEngineering.FeatureEngineering.PerformEngineeringWithoutParams`:
  these forward to the adapter. Their contract is stated once, through
  `FeatureEngineering.Request`.
