# Tuner bookkeeping of keras-tuner, in Dafny

This project models the bookkeeping core of the `Tuner` class of keras-tuner
(`kerastuner/engine/tuner.py`) and proves properties of it:

- **Instance generation** (`new_instance`). The tuner calls the user's model factory
  again and again. It classifies each attempt as an exception, a falsy model, a model
  already trained in a previous run, a collision with an instance of this run, an
  oversized model, or an accepted model. It keeps run-wide counters and two per-call
  streaks. It either registers one new instance or returns `None`.
  `Generation.Step` and `Generation.Run` define one loop iteration and a whole call
  as functions. `TunerEngine.Tuner.NewInstance` is the imperative `while` loop over
  the class's fields, proved to compute `Run`; its body is the method
  `TunerEngine.Tuner.Pass`, proved to compute `Step`. The lemmas of `Generation` state the
  retry policy.
- **Key metrics and statistics** (`__init__` and `record_results`). The tuner
  filters the user's `(name, direction)` metrics or falls back to a default list. It
  seeds `stats['best']` with `sys.maxsize` for `min` metrics and `-1` for `max`
  metrics. `record_results` then rebuilds `best` and `latest` from one instance's
  results. `Metrics.KeptMetrics` and `Metrics.Statistics` are the reference
  definitions. `Metrics.SelectKeyMetrics`, `Metrics.SeedStatistics` and
  `Metrics.ComputeStatistics` are the loops, proved against them.
- **Search-space size** (`summary`). This is the product of the `space_size` of every
  hyperparameter, overall and per group (`SearchSpace`).

The model factory is a finite list of attempts, `Raise | Falsy | Built(id,
numParams)`, with one attempt consumed per iteration. The model identity (a SHA-256
digest of the model configuration, cut to 32 hex characters) and the parameter count
(`compute_model_size`) are given in each `Built` attempt. When the list runs out, a
call ends with `Stop.ScriptEnded`. The source would call the factory again at that
point. This is how the model shows that skipping previously trained models has no
bound of its own.

Modules: `Wrappers` (Option, Result), `Metrics`, `Generation`, `SearchSpace`,
`TunerEngine` (the `Tuner` class).

Details the model follows from the code:

- The invalid-model limit tests the run-wide `num_invalid_models`, which is never
  reset. Only the collision and oversize streaks are per call.
- A falsy model ends the call at once.
- `fail_streak` is incremented and never read.
- `record_results` *replaces* `best` and `latest` with dictionaries that hold only
  the key metrics present in the results.
- When a key-metric name repeats, the last entry's direction wins, both in
  `stats['direction']` and in the best computation.
- A non-empty `metrics` argument in which no entry is valid gives no key metrics. The
  default list is used only when the argument is absent or empty.

## Model

| member | source | states |
|---|---|---|
| `Metrics.Validate` | kerastuner/engine/tuner.py:80-89 | an entry is kept exactly when it is a tuple whose direction is `'min'` or `'max'`, and the kept metric has that name and direction |
| `Metrics.SelectKeyMetrics` | kerastuner/engine/tuner.py:77-93 | no user metrics gives exactly `[(loss,min),(val_loss,min),(acc,max),(val_acc,max)]`; otherwise the result is the filtered list `KeptMetrics` |
| `Metrics.KeptMetricsAppend` | kerastuner/engine/tuner.py:80-89 | filtering distributes over concatenation, so the kept entries keep their relative order |
| `Metrics.KeptMetricsMembers` | kerastuner/engine/tuner.py:80-89 | a key metric is kept if and only if the user gave it as a tuple with a valid direction |
| `Metrics.KeptMetricsLength` | kerastuner/engine/tuner.py:80-89 | the filtered list is never longer than the input, and is as long exactly when every entry is valid |
| `Metrics.NoValidMetricsGivesNone` | kerastuner/engine/tuner.py:78-89 | a non-empty argument with no valid entry gives an empty key-metric list, not the default |
| `Metrics.DefaultNames` | kerastuner/engine/tuner.py:92-93 | the default key metrics are named loss, val_loss, acc and val_acc |
| `Metrics.SeedStatistics` | kerastuner/engine/tuner.py:95-107 | `latest` starts empty; `best` and `direction` hold exactly the key-metric names; each direction is the last one given for that name; each best is `sys.maxsize` for `min` and -1 for `max` |
| `Metrics.Improve` | kerastuner/engine/tuner.py:336-339 | the new best is at least as good as both the previous best and the value under the metric's direction, and is one of the two |
| `Metrics.ComputeStatistics` | kerastuner/engine/tuner.py:328-339 | the loop over the key metrics computes `Statistics`, including the `KeyError` it raises |
| `Metrics.StatisticsFailure` | kerastuner/engine/tuner.py:330-334 | the computation fails if and only if some key metric present in the results has no previous best, and the error names such a metric |
| `Metrics.StatisticsSuccess` | kerastuner/engine/tuner.py:328-343 | after success, `best` and `latest` hold exactly the key metrics present in the results; `latest[m]` is the recorded value; `best[m]` is the better of the previous best and the value under the last direction for `m` |
| `Metrics.SeededStatisticsSucceed` | kerastuner/engine/tuner.py:101-107 | when every key metric has a best, as right after seeding, the computation cannot fail |
| `Metrics.FirstRecordBest` | kerastuner/engine/tuner.py:104-107 | on the first record after seeding, best is the value if it is at least as good as the sentinel, and the sentinel otherwise |
| `Metrics.BestNeverWorse` | kerastuner/engine/tuner.py:330-343 | over a series of records, a key metric present in every one ends with a best at least as good as its start and as every recorded value |
| `Metrics.AbsentMetricBreaksNextRecord` | kerastuner/engine/tuner.py:333 | as written: record `{loss}` and then `{loss, val_loss}` with the default metrics; the second call fails with `KeyError` for `val_loss` |
| `Metrics.RetainedSpec` | kerastuner/engine/tuner.py:328-343 | corrected update: no metric is lost; `latest` changes only for reported metrics, to the reported value |
| `Metrics.RetainedBest` | kerastuner/engine/tuner.py:330-339 | corrected update: `best` changes only for reported metrics, and there it is at least as good as the reported value and as the previous best |
| `Metrics.RetainedBestDominatesHistory` | kerastuner/engine/tuner.py:330-343 | corrected update: each key metric's best is at least as good as its seed and as every value ever recorded for it, whichever calls reported it |
| `Metrics.RetainedAgreesOnReported` | kerastuner/engine/tuner.py:330-339 | the corrected update agrees with the source on every metric the source keeps |
| `Generation.RunInstances` | kerastuner/engine/tuner.py:267-299 | an accepted id was in neither `instances` nor `previous_instances`, has at most `max_params` parameters, came from the factory, and is the only key added to `instances`; every other outcome leaves `instances` unchanged |
| `Generation.StepCounters` | kerastuner/engine/tuner.py:242-294 | one iteration increments `num_generated_models` and no counter decreases; exactly one other counter counts it, unless it accepts a model or gets a falsy one |
| `Generation.RunCounters` | kerastuner/engine/tuner.py:239-294 | every iteration increments `num_generated_models`; no counter decreases; each iteration is counted by exactly one other counter, except the last iteration of a call that accepts a model or gets a falsy one; at most one iteration per attempt |
| `Generation.RunMetaOnAccept` | kerastuner/engine/tuner.py:280-282 | on acceptance, `meta_data['tuner']` mirrors the final counters |
| `Generation.RunStreakLimits` | kerastuner/engine/tuner.py:251-294 | from a counter below `max_fail_streak`, a call stops on its limit exactly when the counter reaches it, and otherwise the counter stays below (the run-wide `num_invalid_models`, the per-call collision and oversize streaks); from a counter already at or above the limit, as `num_invalid_models` is in every call after one that stopped on it, stopping on that limit means the counter is at or above it, and any other stop leaves the counter unchanged |
| `Generation.InvalidCountNotReset` | kerastuner/engine/tuner.py:251-258 | once `num_invalid_models` has reached the limit, the next exception ends the call at once, in any later call |
| `Generation.FalsyEndsCall` | kerastuner/engine/tuner.py:260-263 | a falsy model returns `None` at once; only `num_generated_models` changes |
| `Generation.PreviouslyTrainedSkipped` | kerastuner/engine/tuner.py:267-270 | a previously trained id changes only `num_generated_models` and `num_mdl_previously_trained`, and the loop continues with the same streaks |
| `Generation.AlwaysRaising` | kerastuner/engine/tuner.py:244-258 | a factory that always raises stops the call after exactly the attempts needed to bring `num_invalid_models` to `max_fail_streak` |
| `Generation.AlwaysColliding` | kerastuner/engine/tuner.py:272-279 | models that all collide stop the call after `max_fail_streak` collisions, minus the streak already reached; `instances` unchanged |
| `Generation.AlwaysOversized` | kerastuner/engine/tuner.py:283-294 | new models that are all oversized stop the call after `max_fail_streak` rejections, minus the streak already reached; nothing registered |
| `Generation.AlwaysPreviouslyTrained` | kerastuner/engine/tuner.py:267-270 | models all trained before never end a call; only the generated and previously-trained counters move |
| `Generation.PreviousSkipThenAccept` | kerastuner/engine/tuner.py:265-299 | a previously trained model followed by a new one accepts the second; only `num_mdl_previously_trained` records the skip |
| `Generation.SameModelTwice` | kerastuner/engine/tuner.py:272-299 | a factory that always builds the same model: the first call registers it, and a later call stops after `max_fail_streak` collisions |
| `SearchSpace.SearchSpaceSize` | kerastuner/engine/tuner.py:174-180 | `total_size` is the product of all space sizes; `group_size` has exactly the groups present, each with the product of its own sizes |
| `SearchSpace.GroupProductAbsent` | kerastuner/engine/tuner.py:176 | a group not yet seen starts at 1, as the defaultdict does |
| `SearchSpace.ProductSplitsByGroup` | kerastuner/engine/tuner.py:177-180 | the total is the product of any one group's size and the size of the rest |
| `SearchSpace.ProductAppend` | kerastuner/engine/tuner.py:177-180 | the size of two lists of hyperparameters together is the product of their sizes |
| `TunerEngine.LoadPreviouslyTrained` | kerastuner/engine/tuner.py:138-149 | the loop computes `LoadedRecords`, whose ids are exactly those of records with the tuner's architecture and project |
| `TunerEngine.LoadedRecordsKeys` | kerastuner/engine/tuner.py:144-149 | the ids kept are exactly those of the records with the tuner's architecture and project |
| `TunerEngine.LoadedRecordsLast` | kerastuner/engine/tuner.py:144-149 | each kept id is stored with the last record of this architecture and project that has that id |
| `TunerEngine.Tuner.constructor` | kerastuner/engine/tuner.py:63-112 | `max_fail_streak` is 5; key metrics as `SelectKeyMetrics`; statistics as `SeedStatistics`; previous instances as `LoadedRecords`; no instances, no current instance, counters at zero |
| `TunerEngine.Tuner.GetModelById` | kerastuner/engine/tuner.py:431-432 | the instance registered under `idx` if there is one, carrying that id, and `None` otherwise |
| `TunerEngine.Tuner.UpdateMetadata` | kerastuner/engine/tuner.py:439-448 | `meta_data['tuner']` becomes the snapshot of the counters |
| `TunerEngine.Tuner.Pass` | kerastuner/engine/tuner.py:241-296 | one pass of the loop body updates the counters, the metadata and the streaks as `Step` says; it reports whether the loop goes round again, returns `None` on a limit or a falsy model, or breaks with the new instance |
| `TunerEngine.Tuner.NewInstance` | kerastuner/engine/tuner.py:233-312 | the new counters, instances and metadata are those of `Run` from the old state with both streaks at 0; an accepted instance becomes current and is returned as `instances[id]`; otherwise `None` and the current instance is kept; statistics unchanged |
| `TunerEngine.Tuner.RecordResults` | kerastuner/engine/tuner.py:314-344 | a falsy `idx` means the current instance; an unknown instance raises `KeyError` with nothing changed; otherwise `best` and `latest` are replaced as `Statistics` says, or nothing changes when it raises |

## Findings

| source | as written | input that shows it | evidently intended | confidence | as-written member | corrected member |
|---|---|---|---|---|---|---|
| kerastuner/engine/tuner.py:333 | `record_results` keeps in `best` only the metrics of the latest results (line 342). It then reads `self.stats['best'][metric_name]` for every key metric the next results report. | default key metrics; record `{'loss': 0.5}`, then `{'loss': 0.4, 'val_loss': 0.3}`; the second call raises `KeyError: 'val_loss'` | a metric missing from one result keeps its best and latest, so that best dominates every value ever recorded | not executed | `Metrics.AbsentMetricBreaksNextRecord` | `Metrics.RetainedBestDominatesHistory` |

The class `TunerEngine.Tuner` follows the code as written. `Metrics.Retained` is the
corrected update, and `Metrics.RetainedSpec`, `Metrics.RetainedBest`,
`Metrics.RetainedBestDominatesHistory` and `Metrics.RetainedAgreesOnReported` are
proved about it. A related property that
is not claimed as a bug: the sentinels are finite. A `max` metric whose values stay
below -1 keeps best -1 (`Metrics.FirstRecordBest`).

## Left out

- TensorFlow graph and session handling and `gc.collect` (`_clear_tf_graph`, the session set-up in `__init__`): side effects of the framework.
- All display and logging: `cprint`, `warning`, `info`, `section`, `setting`, `subsection`, `print_table`, `set_log`, the debug traceback, and the `data_by_group` table and row building in `summary`.
- Reading the results directory and parsing JSON in `_load_previously_trained_instances`: file I/O. The records are given already read. A file without the expected keys would raise, and that is not modelled.
- `CloudService`, `enable_cloud`, `search`, `search_generator`, the abstract `tune`, `done` and `display_result_summary`: plumbing to training and reporting.
- `get_best_models`, `export_best_models` and `export_best_model`: their ranking is delegated to `read_results(...).sorted_by_metric(...).limit(...)`, which is not part of this model. Reloading and saving are model-format I/O.
- `get_best_model`: it calls itself with another keyword and cannot return.
- `__compute_model_id`: SHA-256 of `str(model.get_config())` is a foreign call. The id is given in each `Built` attempt.
- `Instance` construction and `compute_model_size`: external. `Instance` keeps only the id and the parameter count. The model object, hyperparameters, batch size, callbacks and checkpoint settings are not carried.
- The hyperparameter distribution (`config._DISTRIBUTIONS`, which the constructor assigns, and `config.DISTRIBUTIONS`, which `new_instance` reads at line 280; `get_current_hyperparameters`, `current_hyperparameters`) and `_check_and_store_model_fn`: a global external generator and a trial call of the factory. The `config` module is not part of this model. If it defines no `DISTRIBUTIONS`, every model that is neither previously trained nor a collision raises `AttributeError` at line 280.
- `TunerState` is not part of this model. The constructor assumes that the counters start at zero, that `previous_instances` starts empty, and that `meta_data['tuner']` starts as a snapshot of zero counters.
- `meta_data['statistics']` holds the same dictionary as `stats` in the source. The model keeps only `stats`.
- `max_fail_streak` is a public attribute that callers could reassign. The model fixes it at construction (5).
- User metric tuples with fewer than two elements raise `IndexError` in the source, and longer tuples are kept with their extra elements. The model has only two-element tuples and non-tuples.
- Metric values are `real`: floating-point rounding and NaN comparisons are not modelled. Counters are unbounded, as Python integers are.
- A falsy `idx` in `record_results` is `None` or the empty string. The model's `Option<Id>` covers both.
- `TunerEngine.Tuner.NewInstance`: only `model_fn()` is inside the `try` (lines 244-258). An exception raised later in an iteration propagates out of `new_instance` without being counted as an invalid model, after `num_generated_models` and `fail_streak` were incremented. The later calls are `model.get_config()` in `__compute_model_id` (line 436), `get_current_hyperparameters()` (line 280), `Instance(...)` (line 283) and `compute_model_size()` (line 286). For the last two, `meta_data['tuner']` was already overwritten at line 282. A `Built` attempt always yields an id and a parameter count, so the model has none of these paths.
- `TunerEngine.Tuner.NewInstance`: the source loop has no bound. The model stops with `ScriptEnded` when the given attempts run out. The source would call the factory again there.
