# City2TABULA attribute validation and feature-extraction scheduling, in Dafny

This project models two cores of the City2TABULA repository and proves what their code promises.

- **The Python attribute-validation engine** (`validation/modules`):
  - The attribute configuration becomes `computed_column -> source_label` mappings.
  - Reference ("thematic") property rows are re-keyed from source label to computed column.
  - Calculated building and surface attributes are inner-joined with the reference values by feature id.
  - Differences and percent errors are computed under per-attribute rules: heights and areas get a stabilised percent error, tilt is linear, azimuth is a shortest arc.
  - The engine reports RMSE, MAE and R², a tolerance verdict per row, and IQR or z-score outliers.
  - The LaTeX descriptive-statistics table is assembled from the rows.
- **The Go feature-extraction scheduling core** (`internal/`):
  - Building IDs are cut into batches.
  - Pipelines wait in a FIFO queue; each pipeline holds jobs with priorities.
  - The orchestrator builds one pipeline per batch, all LOD2 batches before LOD3, with consecutive priorities.
  - The runner sorts a pipeline's jobs by priority and stops at the first failure. Each job runs under a bounded retry and deadlock state machine.
  - A job's LOD is detected from its type name.
  - Small helpers:
    - parsing of an `EPSG:n` spatial reference;
    - `(1,2,3)` building-ID lists and `{key}` placeholder substitution in SQL templates;
    - selection of the LOD schema and sorted listing of SQL script files;
    - environment fallbacks, country-name normalisation and validation of required settings;
    - thread-count clamping and the retry defaults;
    - log-level parsing and naming.

How the source's types are modelled:

- **Python values:**
  - A Python dict is an insertion-ordered association list with distinct keys (`Dicts.Dict`). Assigning an existing key overwrites it in place.
  - A DataFrame is a sequence of record datatypes.
  - A number that may be NaN or None is an `Option<real>`.
  - pandas reductions skip missing values, as pandas does by default.
  - Square root, quantile interpolation, numeric parsing and float formatting are function parameters.
- **Go values:**
  - `Job` is a value.
  - `Pipeline`, `PipelineQueue` and the logger are classes whose methods update their fields in place.
  - The outcome of running a SQL script is an oracle: a function from the job and the attempt number to success or an error text.
  - Map iteration order, the glob result, the environment, the jitter, IDs and timestamps are inputs.

Module by module:

- `Dicts` (dicts.dfy): Python dict semantics.
- `Records` (records.dfy): validation rows.
- `AttributeConfig` (mapping.dfy): `config.py`.
- `ThematicData` (thematic.dfy): `utils.py`.
- `Validators` (validators.dfy): `validators.py`.
- `Plots` (plots.dfy): `plots.py`.
- `Stats` and `Metrics` (stats.dfy, metrics.dfy): `metrics.py`.
- `DataSummary` (data_summary.dfy): `gen-data-summary.py`.
- `Text` (text.dfy): the Go `strings`/`strconv` functions and the Python string joins that the core relies on.
- `Batching` (batch.dfy): `utils/batch.go`.
- `PipelineQueues` (queue.dfy): `queue.go`.
- `Jobs` (jobs.dfy): `job.go` and `pipeline.go`.
- `Sorting` (sorting.dfy): the generic insertion sort that stands for `sort.Slice` and `slices.Sort`.
- `Orchestrator` (orchestrator.dfy): `orchestrator.go`.
- `Runner` (runner.dfy): `runner.go`.
- `Exec` (exec.dfy): `exec.go`.
- `SqlConfig` (sql_config.dfy): `sql.go`.
- `Settings` (settings.dfy): `env.go`, `config.go` and `config/batch.go`.
- `Logging` (logger.dfy): `logger.go`.

## Model

| member | source | states |
|---|---|---|
| Dicts.Get | validation/modules/config.py:89 | a lookup is missing exactly when the key is absent; a found value is stored under that key |
| Dicts.Put | validation/modules/config.py:89 | after `d[k] = v` the key reads back `v` and every other key reads as before |
| Dicts.PutShape | validation/modules/config.py:89 | overwriting keeps the key order; a new key is appended at the end |
| Dicts.PutDistinct | validation/modules/config.py:89 | assignment keeps the keys distinct |
| Dicts.GetLast | validation/modules/utils.py:239 | with distinct keys, a lookup hits the last entry or searches the prefix |
| Dicts.KeysOfMembership | validation/modules/validators.py:49 | a key is in the key view exactly when the dict has it, and the view lists each key once when keys are distinct |
| Dicts.ValuesOfGet | validation/modules/utils.py:99 | every value `get` finds appears in the values view |
| Records.Difference | validation/modules/validators.py:74 | `calc - ref` is present exactly when both values are present |
| Records.RowsFor | validation/modules/validators.py:229 | the group of one `attribute_name` holds exactly the rows carrying that name |
| Records.RowsForAppend | validation/modules/validators.py:96 | grouping the concatenation of result frames is the concatenation of the groups |
| AttributeConfig.GetBuildingAttributeMapping | validation/modules/config.py:70-94 | the loop's mapping equals the entries' assignments applied in order |
| AttributeConfig.BuildingMappingGet | validation/modules/config.py:82-92 | a column maps to the label of the last labelled entry that names it; the keys stay distinct |
| AttributeConfig.BuildingLabelForIsLast | validation/modules/config.py:87-92 | the last assignment to a column is the label of the last labelled entry whose columns (`computed_columns` when present, else `computed_column`) include it |
| AttributeConfig.LastAssignedLabelEach | validation/modules/config.py:87-89 | every column in `computed_columns` maps to the entry's one `source_label` (many to one) |
| AttributeConfig.BuildingLabelsNonEmpty | validation/modules/config.py:82-84 | no building column maps to an empty or missing label |
| AttributeConfig.PutAllGet | validation/modules/config.py:89 | a run of assignments leaves each key at its last assigned value, else unchanged |
| AttributeConfig.PutAllDistinct | validation/modules/config.py:89 | a run of assignments keeps the keys distinct |
| AttributeConfig.LastAssignedAppend | validation/modules/config.py:86-92 | the later of two assignment runs decides a key when it assigns it |
| AttributeConfig.GetSurfaceAttributeMapping | validation/modules/config.py:97-115 | an unknown surface type gives `{}`; the keys are distinct |
| AttributeConfig.SurfaceMappingGet | validation/modules/config.py:110-115 | only the singular `computed_column` is used, the last one wins, and every label is non-empty |
| AttributeConfig.SurfaceLabelForIsLast | validation/modules/config.py:111-112 | the comprehension keeps the last labelled entry for a repeated column |
| AttributeConfig.SurfaceLabelsNonEmpty | validation/modules/config.py:114 | no surface column maps to an empty label |
| AttributeConfig.GetSurfaceTypeFilter | validation/modules/config.py:118-136 | `['RoofSurface']` exactly for `tilt` and `azimuth`, None otherwise |
| ThematicData.CalculatedTableNames | validation/modules/utils.py:31-41 | the schema is the configured `city2tabula_schema` or `city2tabula`; each table is `{citydb_schema}_` (schema default `lod2`) followed by the configured table name, or by its key when none is configured |
| ThematicData.CalculatedTableDefaults | validation/modules/utils.py:31-41 | with nothing configured the tables are `lod2_building_feature` and `lod2_child_feature_surface` |
| ThematicData.SourceLabels | validation/modules/utils.py:99 | the label list holds exactly the non-empty mapping values |
| ThematicData.LabelListRoundTrip | validation/modules/utils.py:106-107 | splitting the IN-list at commas gives back the quoted labels, each holding its label |
| ThematicData.PropertyQuery | validation/modules/utils.py:91-107 | no query exactly when the IDs or the mapping are empty or no label is non-empty; otherwise the ID list and the quoted label list |
| ThematicData.LabelToColumns | validation/modules/utils.py:143-147 | the reverse map sends each mapped label to the list of all its columns, in mapping order |
| ThematicData.ColumnsFor | validation/modules/utils.py:143-147 | the columns listed for a label are exactly those the mapping sends to it |
| ThematicData.ColumnsForLabel | validation/modules/utils.py:145 | a label has a column list exactly when it is a mapping value |
| ThematicData.ExpandAllMembership | validation/modules/utils.py:150-159 | the expanded rows are exactly the rows derived from some reference row and a column of its label; unmapped labels yield nothing |
| ThematicData.LoadThematicBuildingData | validation/modules/utils.py:91-165 | an empty frame when there is no query; otherwise the fan-out expansion of the query result |
| ThematicData.SurfaceReverseMapGet | validation/modules/utils.py:239 | a shared label keeps only its last column |
| ThematicData.LoadThematicSurfaceData | validation/modules/utils.py:190-245 | one output row per query row, named by the label's last column or missing when unmapped |
| Validators.PercentError | validation/modules/validators.py:77-81 | the percent error is present exactly when the difference is present and the reference is non-zero |
| Validators.Pairing | validation/modules/validators.py:72-81 | an output row carries the calculated id, the computed column, `calc - ref` and the percent error |
| Validators.InnerJoinMembership | validation/modules/validators.py:64-69 | a row is in the join exactly when it pairs a calculated row with a reference row of the column having the same feature id |
| Validators.InnerJoinCount | validation/modules/validators.py:64-69 | the join has exactly as many rows as there are such (calculated, reference) index pairs: one row per matching pair |
| Validators.InnerJoinRowsFor | validation/modules/validators.py:72 | every joined row is labelled with the computed column |
| Validators.ValidateBuildingAttributes | validation/modules/validators.py:42-100 | the loop computes the building validation; an empty input gives an empty result |
| Validators.BuildingFromFails | validation/modules/validators.py:64 | the validation raises exactly when a labelled entry with reference rows names a column the calculated table lacks |
| Validators.NoReferenceNoJoin | validation/modules/validators.py:59-61 | an attribute without reference rows contributes no rows |
| Validators.BuildingValidationCorrect | validation/modules/validators.py:42-100 | per column: the inner join when the column has a non-empty label, otherwise nothing; failure exactly as above |
| Validators.OfClass | validation/modules/validators.py:137 | the filter keeps exactly the rows whose classname is the surface type |
| Validators.ValidateSurfaceAttributes | validation/modules/validators.py:132-202 | the loop computes the surface validation; empty inputs or no row of the class give an empty result |
| Validators.SurfaceValidationCorrect | validation/modules/validators.py:137-191 | every row has the surface type; per present column, the labelled join over the filtered rows; a mapped column absent from the table yields no rows |
| Validators.SurfaceFromClassname | validation/modules/validators.py:166-191 | the surface rows keep the classname of the filtered calculated rows |
| Validators.GroupNames | validation/modules/validators.py:229 | the groups are exactly the attribute names present, in ascending order |
| Validators.InsertName | validation/modules/validators.py:229 | inserting a name keeps the group list ascending and adds exactly that name |
| Validators.SummaryFor | validation/modules/validators.py:229-239 | a summary row is named after its group; count is the number of present differences; mean and std (ddof 1) of the differences, RMSE `sqrt(mean(d²))`, and mean and std of the present percent errors, each as the Stats functions define them; mean and RMSE are present exactly when the count is positive |
| Validators.ValidationSummary | validation/modules/validators.py:225-227 | an empty frame gives an empty summary |
| Validators.ValidationSummaryAscending | validation/modules/validators.py:229-232 | the summary rows are in strictly ascending attribute order |
| Validators.ValidationSummaryLine | validation/modules/validators.py:229-239 | one row per attribute present, with the count of differences and `sqrt(mean(d²))` as RMSE |
| Plots.AngularDistance | validation/modules/plots.py:66-69 | the azimuth difference lies in [0,180] |
| Plots.AngularDistanceIsShortestArc | validation/modules/plots.py:66-69 | the result is the shortest arc between the two directions on the 360° circle |
| Plots.ShortestArcUnique | validation/modules/plots.py:66-69 | the shortest arc is unique, so the folding formula is determined by its meaning |
| Plots.AngularDistanceSymmetric | validation/modules/plots.py:67-70 | the azimuth difference is symmetric and 0 for equal directions |
| Plots.StabilisedPercent | validation/modules/plots.py:41-50 | a stabilised percent error needs both values and a non-zero `ref + 1e-6` |
| Plots.ComputeErrors | validation/modules/plots.py:27-76 | one output row per input row with the ids, name and both values unchanged |
| Plots.ComputeErrorsRelative | validation/modules/plots.py:39-50 | heights and areas: linear difference and `difference/(ref + 1e-6)·100` |
| Plots.ComputeErrorsLinear | validation/modules/plots.py:56-59 | tilt and unlisted attributes: linear difference, percent error missing |
| Plots.ComputeErrorsAzimuth | validation/modules/plots.py:66-71 | azimuth: shortest-arc difference in [0,180], percent error missing |
| Plots.PercentOnlyForHeightsAndAreas | validation/modules/plots.py:27-76 | only heights and areas ever get a percent error |
| Plots.ScatterRSquared | validation/modules/plots.py:117-119 | R² is `1 - ss_res/ss_tot`, or exactly 0 when `ss_tot` is 0, and at most 1 |
| Plots.PngFallbackPath | validation/modules/plots.py:137-140 | a `.ipe` suffix (any case) is replaced by `.png`, otherwise `.png` is appended |
| Plots.SaveTarget | validation/modules/plots.py:135-144 | nothing is saved without a path; `ipe` without the backend saves to exactly `PngFallbackPath(save_path)`; otherwise to the path as given |
| Plots.GridShape | validation/modules/plots.py:302-303 | 2 columns and the fewest rows giving at least `n` cells |
| Plots.HiddenCells | validation/modules/plots.py:353-354 | the hidden cells are exactly the grid cells from index `n` on: one when `n` is odd, none otherwise |
| Stats.Present | validation/modules/metrics.py:70 | skipping NaN keeps exactly the present values |
| Stats.Mean | validation/modules/metrics.py:70 | the mean is missing exactly for no values; otherwise it times the count is the sum |
| Stats.SampleVariance | validation/modules/validators.py:230 | the sample variance is missing below two values and otherwise non-negative |
| Stats.ResidualSumOfSquares | validation/modules/metrics.py:99 | `ss_res` is non-negative |
| Stats.TotalSumOfSquares | validation/modules/metrics.py:100 | `ss_tot` is non-negative |
| Stats.MeanSquareBound | validation/modules/metrics.py:40-45 | the mean of the squares is at least the square of the mean |
| Stats.SumSquaredDeviationsExpand | validation/modules/metrics.py:100 | the squared deviations from `m` expand into `Σx² - 2mΣx + n·m²` |
| Metrics.ByAttribute | validation/modules/metrics.py:33-45 | None for empty input or an empty filter; with a filter, the metric of that group; without one, one key per attribute present |
| Metrics.R2Of | validation/modules/metrics.py:96-103 | R² is None for fewer than 2 rows or `ss_tot = 0`; otherwise it is `1 - ss_res/ss_tot` and at most 1 |
| Metrics.MaeNonNegative | validation/modules/metrics.py:70-75 | every MAE is at least 0 |
| Metrics.RSquaredAtMostOne | validation/modules/metrics.py:78-112 | every R² is at most 1 |
| Metrics.GroupMaeAtMostRmse | validation/modules/metrics.py:40-75 | over one group, MAE and RMSE are present together, and MAE ≤ RMSE |
| Metrics.MaeAtMostRmse | validation/modules/metrics.py:18-75 | `calculate_mae` and `calculate_rmse` have the same shape and keys, and MAE ≤ RMSE wherever both are present |
| Metrics.ExactRSquared | validation/modules/metrics.py:96-103 | exact calculations give R² = 1 whenever R² is defined |
| Metrics.ToleranceKey | validation/modules/metrics.py:147-151 | `min_height` and `max_height` use the `height` tolerance; every other name uses its own |
| Metrics.Verdict | validation/modules/metrics.py:153-160 | None without a threshold; true exactly when the absolute or percent deviation is within the threshold (inclusive) |
| Metrics.CheckTolerance | validation/modules/metrics.py:132-164 | the rows are unchanged; no column is added for empty input or no tolerances; otherwise one verdict per row |
| Metrics.Keep | validation/modules/metrics.py:199 | the outliers are exactly the rows the test selects, each kept as many times as it occurs in the input |
| Metrics.Quartiles | validation/modules/metrics.py:193-195 | quartiles exist exactly when some difference is present |
| Metrics.GetOutliers | validation/modules/metrics.py:167-210 | empty input gives no outliers; an unknown method raises the exact ValueError; otherwise a subset of the input |
| Metrics.Selected | validation/modules/metrics.py:187-188 | the searched frame: the rows of the named attribute, or all rows when no name is given |
| Metrics.IqrOutliers | validation/modules/metrics.py:187-199 | with `iqr`, with or without an attribute name, exactly the rows of the searched frame strictly outside that frame's `[Q1 - t·IQR, Q3 + t·IQR]` |
| Metrics.ZScoreOutliers | validation/modules/metrics.py:187-205 | with `zscore`, with or without an attribute name, exactly the rows of the searched frame whose `|d - mean|/std` over that frame exceeds the threshold |
| Metrics.ZScoreOutlierExact | validation/modules/metrics.py:203-205 | the division-free test used by the model equals `|d - mean|/std > t` |
| Metrics.ZScoreNeedsTwo | validation/modules/metrics.py:201-205 | with fewer than two differences, no row is a z-score outlier |
| DataSummary.RequireCols | validation/modules/gen-data-summary.py:49-54 | raises exactly when a required column is missing; the message lists the missing names sorted |
| DataSummary.Sorted | validation/modules/gen-data-summary.py:53 | `sorted` gives an ascending list of the same names |
| DataSummary.Clean | validation/modules/gen-data-summary.py:60-63 | the kept rows are exactly those with a name and a numeric value |
| DataSummary.LoadAndClean | validation/modules/gen-data-summary.py:57-63 | fails exactly when `attribute_name` or `thematic_value` is missing; otherwise the cleaned rows |
| DataSummary.StatsOf | validation/modules/gen-data-summary.py:66-72 | count is the number of values; the mean is the group's mean; the std is the root of the sample variance (ddof 1), present iff two values; min and max are attained bounds |
| DataSummary.StatsByAttribute | validation/modules/gen-data-summary.py:66-72 | one stats entry per attribute present, computed from exactly its values |
| DataSummary.StatsConsistent | validation/modules/gen-data-summary.py:66-72 | every entry has `min ≤ mean ≤ max` and a positive count |
| DataSummary.Fmt | validation/modules/gen-data-summary.py:75-81 | a missing value renders as `--`, a present one as its text to the given decimals |
| DataSummary.Cells | validation/modules/gen-data-summary.py:84-96 | the 7 cells `RowToLatex` joins with ` & `: category and label, then five `--` for an absent attribute, or the count, mean, std (`--` when missing), min and max in that order |
| DataSummary.FullTableLines | validation/modules/gen-data-summary.py:99-115 | the rows appear unchanged and in order between the header `\hline` and the closing `\hline` |
| DataSummary.MissingAttributes | validation/modules/gen-data-summary.py:146-148 | the missing list is exactly the wanted names not in the stats |
| DataSummary.Report | validation/modules/gen-data-summary.py:134-148 | one row per row spec in order, wrapped when a full table is asked for, with the missing and available lists |
| DataSummary.Generate | validation/modules/gen-data-summary.py:118-157 | a missing file stops with its message; a bad CSV raises; otherwise the report on both files combined |
| Text.ToUpperCases | internal/utils/exec.go:70 | upper-casing leaves no small ASCII letter, turns each into its capital, keeps every other character, and lower-casing the result equals lower-casing the input |
| Text.ToLowerCases | internal/config/env.go:40 | lower-casing leaves no ASCII capital, turns each into its small letter, keeps every other character, and upper-casing the result equals upper-casing the input |
| Text.ToLowerIdempotent | internal/config/env.go:40 | lower-casing twice is lower-casing once |
| Text.TrimPrefix | internal/utils/exec.go:71 | a present prefix is removed, otherwise the string is unchanged |
| Text.TrimSpace | internal/config/env.go:40 | the result is a slice of the input with no space at either end |
| Text.TrimSpaceEmpty | internal/config/env.go:50 | trimming gives `""` exactly for an all-space string |
| Text.TrimSpaceSurrounded | internal/config/env.go:40 | surrounding spaces do not change the trimmed string |
| Text.ReplaceAllAbsent | internal/utils/exec.go:149 | replacing an absent pattern changes nothing |
| Text.IndexOf | validation/modules/utils.py:106 | the first occurrence of a character |
| Text.SplitJoin | validation/modules/utils.py:106 | splitting a join at its separator gives back the parts |
| Text.Itoa | internal/utils/exec.go:97 | decimal text is non-empty and comma-free |
| Text.Atoi | internal/config/env.go:31 | a parsed integer is within the 64-bit range and came from non-empty text |
| Text.AtoiItoa | internal/utils/exec.go:97 | parsing the decimal text of an int64 gives it back |
| Text.DigitsRoundTrip | internal/utils/exec.go:97 | the digits of a natural number read back as that number |
| Text.IdListRoundTrip | validation/modules/utils.py:106 | the comma-joined ID list splits and parses back into the IDs |
| Text.LexLeTotal | internal/config/sql.go:124 | the byte-wise string order is total |
| Text.LexLeAntisymmetric | internal/config/sql.go:124 | the byte-wise string order is antisymmetric |
| Text.LexLeTransitive | internal/config/sql.go:124 | the byte-wise string order is transitive |
| Text.AfterLast | internal/process/orchestrator.go:91 | the base name is a suffix holding no separator |
| Batching.CreateBatches | internal/utils/batch.go:3-17 | the loop computes the batches; `size ≤ 0` gives `[ids]`; empty IDs give none; a large size gives one batch |
| Batching.FlattenBatches | internal/utils/batch.go:8-16 | concatenating the batches gives back the IDs |
| Batching.BatchSizes | internal/utils/batch.go:9-15 | every batch but the last has `size` IDs; the last has 1 to `size` |
| Batching.BatchCount | internal/utils/batch.go:9-15 | there are `ceil(len(ids)/size)` batches |
| Batching.Singletons | internal/utils/batch.go:9-15 | size 1 gives one singleton batch per ID |
| PipelineQueues.PipelineQueue.constructor | internal/process/queue.go:15-19 | a new queue is empty |
| PipelineQueues.PipelineQueue.Len | internal/process/queue.go:45-49 | the length is the number of queued pipelines |
| PipelineQueues.PipelineQueue.IsEmpty | internal/process/queue.go:52-54 | empty exactly when the length is 0 |
| PipelineQueues.PipelineQueue.Peek | internal/process/queue.go:57-66 | the front pipeline, or nil for an empty queue |
| PipelineQueues.PipelineQueue.Enqueue | internal/process/queue.go:22-28 | appends at the back and stamps `EnqueuedAt`; nothing else of the pipeline changes |
| PipelineQueues.PipelineQueue.Dequeue | internal/process/queue.go:31-42 | returns what `Peek` returned and removes exactly it; an empty queue is unchanged |
| PipelineQueues.PipelineQueue.Clear | internal/process/queue.go:69-73 | the queue becomes empty |
| PipelineQueues.FifoOrder | internal/process/queue.go:22-42 | two pipelines come out in the order they went in, then nil |
| Jobs.NewJob | internal/process/job.go:29-38 | type, params, SQL file and any priority are stored exactly as given |
| Jobs.Pipeline.constructor | internal/process/pipeline.go:23-30 | IDs and jobs are stored unchanged, and `EnqueuedAt` is zero |
| Jobs.Pipeline.AddJob | internal/process/pipeline.go:32-34 | appends the job last and keeps the earlier jobs and all other fields |
| Sorting.Sort | internal/process/runner.go:33-35 | sorting permutes the jobs |
| Sorting.SortSorted | internal/process/runner.go:33-35 | the sorted jobs are ordered by the given total preorder |
| Sorting.InsertSorted | internal/config/sql.go:124 | insertion into a sorted list stays sorted |
| Orchestrator.JobsForAt | internal/process/orchestrator.go:33-42 | job `i` is the job for script `i`, typed by its label and file, with priority `first + i` |
| Orchestrator.AddJobs | internal/process/orchestrator.go:36-42 | given each script's job type, the loop appends exactly those jobs in order and advances the counter by their number |
| Orchestrator.CreatePipeline | internal/process/orchestrator.go:25-46 | one new pipeline of the batch with the main scripts at priorities 1..n, enqueued last |
| Orchestrator.BuildFeatureExtractionQueue | internal/process/orchestrator.go:11-59 | a script-load error is returned; otherwise one distinct pipeline per batch, LOD2 batches first, then LOD3 |
| Orchestrator.DBSetupPipelineQueue | internal/process/orchestrator.go:61-100 | one pipeline with no IDs: table scripts as LOD2, then as LOD3, then functions |
| Orchestrator.SetupJobsConsecutive | internal/process/orchestrator.go:71-94 | the setup jobs number `2·tables + functions`, with priorities 1, 2, … in order |
| Orchestrator.SupplementaryPipelineQueue | internal/process/orchestrator.go:102-130 | one pipeline with no IDs holding the supplementary jobs at priorities 1..n |
| Orchestrator.ConsecutiveRunInOrder | internal/process/runner.go:33-35 | jobs with consecutive priorities sort back into the order they were added |
| Orchestrator.LodTwoText | internal/process/orchestrator.go:33-35 | a LOD2 job type is `"LOD2 " + file` |
| Orchestrator.LodThreeText | internal/process/orchestrator.go:33-35 | a LOD3 job type is `"LOD3 " + file` |
| Orchestrator.LodLabelRoundTrip | internal/process/runner.go:110-118 | for a file name mentioning neither `LOD2` nor `LOD3`, the runner reads back the level the orchestrator wrote into the job type |
| Orchestrator.LodThreeInFileWins | internal/process/runner.go:110-118 | a level-2 job whose file name mentions `LOD3` has its script run at level 3 |
| Orchestrator.FeatureJobsRunAtTheirLevel | internal/process/runner.go:110-127 | every feature job runs at its pipeline's level with its batch's IDs |
| Runner.DeadlockCaseInsensitive | internal/process/runner.go:143-151 | deadlock detection ignores case |
| Runner.DeadlockMentioned | internal/process/runner.go:148-150 | any error text containing `deadlock detected` in any case is a deadlock |
| Runner.NoDeadlockWithoutPhrase | internal/process/runner.go:143-151 | nil, and text with neither phrase, is not a deadlock |
| Runner.RetryDelayCapped | internal/process/runner.go:154-162 | the retry delay never exceeds `MaxDelay` |
| Runner.RetryDelayMonotone | internal/process/runner.go:154-162 | the retry delay does not decrease with the attempt |
| Runner.DefaultRetryDelays | internal/process/runner.go:154-162 | with the defaults the delays are 100, 200 and 400 ms |
| Runner.DeadlockDelayBounds | internal/process/runner.go:165-180 | between 50 ms and the 2 s cap; exactly `(50 + 25·attempt + jitter)` ms for attempts 0 to 74, exactly 2 s from attempt 78 on |
| Runner.RunJobWithRetry | internal/process/runner.go:52-99 | the loop's error, call count and delays are those of the retry state machine |
| Runner.AfterFailure | internal/process/runner.go:71-94 | after a failed execution: gives up exactly on a deadlock at an attempt ≥ `DeadlockRetries`; otherwise waits the deadlock delay after a deadlock, the back-off delay after any other error, and nothing after the last attempt |
| Runner.RetryFromFacts | internal/process/runner.go:58-98 | at most `MaxRetries + 1` calls; success exactly when the last call succeeded; a deadlock give-up happens at an attempt ≥ `DeadlockRetries` |
| Runner.RetryContract | internal/process/runner.go:58-98 | from attempt 0: between 1 and `MaxRetries + 1` calls, and success exactly when some attempt succeeded |
| Runner.RetryAllFail | internal/process/runner.go:98 | when every attempt fails, the job fails |
| Runner.DeadlockStopsAtOnce | internal/process/runner.go:72-84 | a deadlock at an attempt ≥ `DeadlockRetries` ends the job at once, with no further attempt or delay |
| Runner.DeadlockBudgetUnused | internal/process/runner.go:72-98 | when the deadlock budget exceeds the retries, failure is always "retries exhausted" |
| Runner.RunSingleJob | internal/process/runner.go:102-131 | success exactly when the script reads and runs at the detected level with the detected IDs |
| Runner.PlainJobRunsWithoutIds | internal/process/runner.go:122-126 | a job type without `LOD2`/`LOD3` runs at level 0 with no IDs |
| Runner.ByPriorityPreorder | internal/process/runner.go:33-35 | ordering by priority is a total preorder |
| Runner.SortJobs | internal/process/runner.go:33-35 | the jobs become a permutation sorted by priority, with other fields unchanged |
| Runner.RunPipeline | internal/process/runner.go:31-44 | sorts the jobs, then runs them in order and stops at the first failure |
| Runner.RunJobsStopsAtFirstFailure | internal/process/runner.go:38-42 | every job before the failing one succeeded, later jobs are not started, and the error names the failing job |
| Runner.DistinctPrioritiesFixOrder | internal/process/runner.go:33-35 | with distinct priorities the sorted order is unique, despite the unstable sort |
| Exec.ParseSrid | internal/utils/exec.go:68-77 | a parsed SRID is positive; a failure carries the exact error message |
| Exec.ParseSridAccepts | internal/utils/exec.go:69-72 | `n`, `EPSG:n` in any case and with surrounding spaces all parse to `n` |
| Exec.ParseSridRejectsNonPositive | internal/utils/exec.go:73-75 | zero and negative numbers are rejected |
| Exec.ParseSridNeedsDigit | internal/utils/exec.go:72-75 | text without a digit is rejected |
| Exec.ParameterMap | internal/utils/exec.go:128-143 | one entry per `param` tag, holding that field |
| Exec.ParameterCount | internal/config/sql.go:34-47 | the map has exactly 12 keys, `building_ids` holds the IDs and `lod_level` the level |
| Exec.FormatBuildingIds | internal/utils/exec.go:93-103 | the IDs become `"(" + comma-joined decimals + ")"`, and `"()"` when empty |
| Exec.IdTupleRoundTrip | internal/utils/exec.go:95-99 | the tuple text is parenthesised and parses back into the IDs |
| Exec.FormatParams | internal/utils/exec.go:88-110 | fails exactly on a non-`[]int64` `building_ids`; otherwise only `building_ids` is rewritten |
| Exec.ParameterMapFormats | internal/utils/exec.go:88-106 | the map built from `SQLParameters` always formats to the ID tuple |
| Exec.Placeholder | internal/utils/exec.go:148 | a placeholder is the key in braces |
| Exec.ReplaceParameters | internal/utils/exec.go:146-152 | never fails, and replaces each key in iteration order |
| Exec.SubstituteAbsent | internal/utils/exec.go:146-152 | a script with no placeholder is returned unchanged |
| Exec.SubstituteOne | internal/utils/exec.go:148-149 | a single `{key}` is replaced by the value's text |
| SqlConfig.GetSQLParameters | internal/config/sql.go:50-72 | the LOD schema is `Lod2`, `Lod3` or `""` by level; every other field is copied through |
| SqlConfig.Paths | internal/config/sql.go:116-119 | one `dir/basename` path per match |
| SqlConfig.LoadSqlFilesFromDir | internal/config/sql.go:106-126 | fails exactly on a glob error or no match; otherwise the sorted listing |
| SqlConfig.SqlFilesListing | internal/config/sql.go:115-125 | the listing is a lexicographically sorted permutation of the paths |
| SqlConfig.LoadSqlScripts | internal/config/sql.go:74-104 | succeeds exactly when all four directories list, and otherwise returns the first failure |
| Settings.GetEnv | internal/config/env.go:21-26 | a non-empty value, else the fallback |
| Settings.GetEnvAsInt | internal/config/env.go:29-36 | the parsed integer, else the fallback |
| Settings.GetEnvAsIntItoa | internal/config/env.go:29-36 | a variable holding an integer's text yields that integer |
| Settings.NormalizeCountryName | internal/config/env.go:39-44 | the trimmed name, lower-cased, with spaces and hyphens turned into `_` |
| Settings.NormalizedForm | internal/config/env.go:39-44 | a normalised name has no space, hyphen or capital, and no space at either end |
| Settings.NormalizeIdempotent | internal/config/env.go:39-44 | normalising twice is normalising once |
| Settings.NormalizeSurrounded | internal/config/env.go:40 | surrounding spaces do not matter |
| Settings.NormalizeWord | internal/config/env.go:40 | a name made only of letters is just lower-cased |
| Settings.GetCountry | internal/config/config.go:44-46 | the country is the normalised `COUNTRY` (`""` when unset) |
| Settings.DefaultRetryConfig | internal/config/batch.go:27-35 | 3 retries, 100 ms, 5 s, factor 2.0, 5 deadlock retries |
| Settings.ThreadCount | internal/config/batch.go:48-67 | always within `[1, max(NumCPU,1)]`; unset or invalid gives the CPU count; otherwise the value clamped |
| Settings.ThreadCountInRange | internal/config/batch.go:61 | a value within the range is returned as given |
| Settings.LoadBatchConfig | internal/config/batch.go:38-45 | size 1000, the thread count, and 10/5 connection defaults |
| Settings.LoadConfig | internal/config/config.go:30-41 | country, DB and CityDB sections, batch settings and retry defaults, all filled in |
| Settings.Validate | internal/config/env.go:47-79 | errors exactly when something is missing, listing the missing names in the fixed order |
| Settings.MissingNone | internal/config/env.go:47-79 | nothing is missing exactly when all eight fields are non-blank |
| Settings.MissingNames | internal/config/env.go:50-73 | each blank field puts its variable name in the list |
| Settings.MissingCount | internal/config/env.go:47-74 | the list has one name per blank field |
| Logging.LevelName | internal/utils/logger.go:93-106 | `UNKNOWN` exactly for a level outside the four |
| Logging.ParseLevel | internal/utils/logger.go:74-90 | always one of the four levels; anything unrecognised gives Info |
| Logging.ParseLevelIgnoresCase | internal/utils/logger.go:75-89 | parsing ignores case |
| Logging.LevelNameRoundTrip | internal/utils/logger.go:93-106 | parsing a level's name gives the level back |
| Logging.WarningIsWarn | internal/utils/logger.go:82-83 | `WARNING` means Warn |
| Logging.UnsetMeansInfo | internal/utils/logger.go:75 | unset or empty `LOG_LEVEL` means Info |
| Logging.DebugOnlyWhenAsked | internal/utils/logger.go:74-90 | debug output is enabled exactly when `LOG_LEVEL` is `debug` in some case |
| Logging.Logger.constructor | internal/utils/logger.go:31 | the initial level is Info |
| Logging.Logger.SetLogLevelFromEnv | internal/utils/logger.go:74-90 | sets the parsed level and warns exactly on an unrecognised name |
| Logging.Logger.SetLogLevel | internal/utils/logger.go:109-112 | sets the level and reports its name |
| Logging.Logger.IsDebugEnabled | internal/utils/logger.go:115-117 | true exactly when the level is at most Debug |
| Logging.Logger.GetLogLevel | internal/utils/logger.go:120-122 | returns the current level |
| Logging.SetThenGet | internal/utils/logger.go:109-122 | after setting a level, getting it returns that level |

## Left out

- Floating point: numbers are `real`, so rounding, overflow to infinity and NaN comparison rules are not modelled. A missing value is `None`.
- Square root, pandas `quantile` interpolation, `float` parsing (`pd.to_numeric`) and `f"{x:.nf}"` formatting are parameters.
- Runner.RetryDelay: `math.Pow` is an exact repeated product (`Backoff`), the `float64`-to-`Duration` conversion truncates toward zero (`Trunc`), and the arithmetic is on reals, so `float64` rounding is not modelled.
- Validators.ValidationSummary: the median of the percent errors is not modelled, and neither is the final `round(4)`.
- Plots.StabilisedPercent: where `ref + 1e-6` is exactly 0, numpy gives inf or NaN; the model gives a missing value.
- Plots: the matplotlib figures themselves are not modelled, only the formulas and path and grid decisions around them.
- ThematicData: the SQL text and `pd.read_sql` are not modelled; the query result is an input.
- Metrics: the printed diagnostics are not modelled.
- Validators.ValidateBuildingAttributes: the printed warnings are not modelled.
- Validators.BuildingFromFails: a mapped column missing from the calculated table is modelled as the KeyError pandas raises; the surface validator skips such a column, as its code does.
- Validators.BuildingFromFails: only the fact of the KeyError is modelled, not the text of pandas' message.
- DataSummary: reading and writing CSV files, argparse, stderr and the exit code are not modelled; file existence and the CSV contents are inputs.
- Concurrency: the queue's mutex, the workers and the WaitGroup fan-out are not modelled; the queue is sequential.
- Jobs.NewJob: the UUID and the `CreatedAt` clock reading are parameters; their uniqueness and format are not modelled.
- Jobs.NewJob: `Params` is taken by value, as `job.go` declares, although some callers pass `&params`.
- PipelineQueues.PipelineQueue.Enqueue: the `time.Now()` stamp is a parameter.
- Runner.RunJobWithRetry: `time.Sleep` is not modelled; the requested delays are returned instead.
- Runner.DeadlockDelayBounds: the `rand.Intn(100)` jitter is an input assumed to lie in [0,100).
- Runner: logging, the database connection and reading SQL files are not modelled; the read result and the execution outcome are inputs.
- Runner.RunPipeline: `sort.Slice` is unstable. The model sorts with a fixed insertion sort and proves only what any correct sort guarantees: a permutation ordered by priority, unique when priorities are distinct.
- Exec: `ExecuteCityDBScript`, `ExecuteCommand` and `conn.Exec` are not modelled.
- Exec.ReplaceParameters: Go map iteration order is an input.
- Exec.ParameterMap: reflection over the struct tags is not modelled; the map is stated field by field.
- Exec.ParseSrid: `strconv.Atoi` is modelled for decimal text with an optional sign within the 64-bit range.
- SqlConfig: `filepath.Glob` is an input. The four directory names are constants standing for the configured paths.
- Settings.LoadConfig: the DB and CityDB loaders are inputs, not modelled. The `Data` section (dataset paths, `loadDataPaths`) is left out of `Config` entirely.
- Settings.Validate: `Config.Validate` appears twice in the source, in `env.go` and `config.go`, with identical bodies, and is modelled once. The `DB` and `CityDB` sections are values, so the nil-pointer panic is not modelled.
- Logging: the log file and writer setup in `InitLogger` are not modelled.
- Text: ASCII case mapping only; Go's Unicode case tables and Python's Unicode `.lower()` (used by `Plots.PngFallbackPath`) are not modelled.
- Azimuth: a value of -1 gets no special treatment, as in the source. There is no export step.
