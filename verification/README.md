# Drift monitor model

A Dafny model of the feature-drift monitor of a fraud-detection serving
service. It covers two pieces of Python.

`DriftDetector` (src/monitoring/drift_detector.py):
- It keeps every submitted feature map in an append-only sample buffer.
- It runs a drift check automatically at 100 samples and every 50 samples after that.
- For each monitored feature it computes the Population Stability Index (PSI) of the
  observed values against a reference histogram.
- It classifies each feature and the overall state, and appends the scores to a
  drift history: a timestamp series plus one PSI series per feature.

`DriftVisualizer` (src/monitoring/drift_visualizer.py) reads that history.
The model covers only its data logic:
- the empty-history default;
- the severity colour of a marker;
- the guards and series alignment of the per-feature plot and the heatmap;
- the heatmap height.

The model is functional. The detector is an immutable value. `add_sample` and
`check_drift` are functions from one detector value to the next. The clock is
a parameter (`sampleTime`, `checkTime`, `now`).

PSI is computed over `real`. The natural logarithm is a parameter
`ln: real -> real`. The proofs assume only `LogSign(ln)`: `ln(1) = 0`,
`ln(x) > 0` for `x > 1`, and `ln(x) < 0` for `0 < x < 1`.
`Psi.LogSignSatisfiable` shows these three facts are consistent.

A PSI value is a `Score`: `Finite(real)` or `NaN`. numpy yields NaN, not an
exception, when a histogram sums to zero. The code then stores that NaN in the
history like any other score. `NaN > threshold` is false, so a NaN feature is
never drifting. Both colour comparisons are also false for NaN, so the
visualiser draws it red.

Modules:
- `History` (history.dfy): shared types — `Score`, the `DriftHistory` record, and
  appending one evaluation.
- `Psi` (psi.dfy): numpy-style re-bucketing, normalisation with the `1e-6` floor,
  and the PSI sum.
- `Detector` (detector.dfy): samples, the trigger rule, `calculate_psi`,
  `check_drift`, `add_sample`, and invariants over any sequence of calls.
- `Visualizer` (visualizer.dfy): colour rule, load default, plot and heatmap
  alignment, height.

## Behaviour of the code worth knowing

- Drifting is strict: the detector tests `psi > threshold` (drift_detector.py:181).
  A PSI of exactly 0.2 is therefore not drifting, although the visualiser colours
  it red (drift_visualizer.py:120). `Visualizer.ColourVersusDrifting` states
  exactly when the two disagree: at `0.2` and at NaN.
- A feature that is absent from every sample is not skipped. `calculate_psi`
  builds an all-zero histogram for it, numpy's `0/0` gives NaN, and `check_drift`
  records that NaN (drift_detector.py:136-151, 177-179). `Detector.CalculatePsi`
  returns `Some(NaN)` in that case. It does the same when no value lies within
  the edges, or when the reference histogram sums to zero.
- `check_drift` appends a score only for features whose PSI is not None
  (drift_detector.py:177-199), so feature series need not be as long as the
  timestamp series.
  - In general this gives a bound: no series is longer than the timestamps
    (`Detector.RunKeepsBounded`).
  - The reference never changes, and after 100 samples None arises only from a
    malformed reference entry. So from a fresh history, the series of each
    well-formed feature is exactly as long as the timestamps, and the series of a
    malformed one stays empty (`Detector.RunKeepsAligned`).
- The detector has no lock, no severity summary and no `not_configured` status.
- `_load_data` reads the history and the optional reference file inside one
  `try` (drift_visualizer.py:31-56). A reference file that exists but cannot be
  read therefore also discards a history that was read successfully
  (`Visualizer.LoadData`).
- The heatmap's second emptiness check (drift_visualizer.py:262-269) can never
  fire after the first guard. `Visualizer.DriftHeatmap` proves that there is at
  least one row and that every row is non-empty.

## Model

| member | source | states |
|---|---|---|
| History.EmptyHistory | src/monitoring/drift_detector.py:60-63 | the new history has no timestamps and an empty series for exactly the given features, so it satisfies the length bound |
| History.AppendEvaluation | src/monitoring/drift_detector.py:175-199 | one timestamp is appended; each scored feature gets exactly its score appended, with a series created when the key was missing; every other series is unchanged |
| History.AppendKeepsBounded | src/monitoring/drift_detector.py:175-199 | appending an evaluation never makes a feature series longer than the timestamp series |
| Psi.FindBin | src/monitoring/drift_detector.py:143 | returns a bin that holds the value under numpy's rule and such that no earlier bin holds it, or None when no bin holds it |
| Psi.FindBinIffInRange | src/monitoring/drift_detector.py:143 | with ordered edges, a value has a bin exactly when it lies between the outer edges |
| Psi.MonotoneIsSorted | src/monitoring/drift_detector.py:143 | numpy's adjacent non-decreasing check on the edges orders every pair of edges |
| Psi.BinsDisjoint | src/monitoring/drift_detector.py:143 | with ordered edges, no value lies in two bins |
| Psi.Rebucket | src/monitoring/drift_detector.py:143 | the re-bucketed histogram has one count per bin and its total is at most the number of values |
| Psi.RebucketCountsBins | src/monitoring/drift_detector.py:143 | every bin's count equals the number of values in `[B[i], B[i+1])`, or in `[B[n-1], B[n]]` for the last bin |
| Psi.RebucketTotal | src/monitoring/drift_detector.py:143 | the histogram total equals the number of values within the outer edges, so exactly the out-of-range values are dropped |
| Psi.Normalise | src/monitoring/drift_detector.py:146-147 | every entry is `max(share, 1e-6)`: it equals the bin's share of the total when that share is at least `1e-6` and equals `1e-6` otherwise (every empty bin included); every entry lies in `[1e-6, 1]` |
| Psi.NormaliseProportional | src/monitoring/drift_detector.py:146-147 | two histograms in the same proportions normalise to identical probability vectors, whatever their totals |
| Psi.PsiSum | src/monitoring/drift_detector.py:150 | the PSI sum over the bins of `(c - r) * ln(c / r)`, for equal-length vectors with a positive reference; its properties are stated by the lemmas below |
| Psi.TermSign | src/monitoring/drift_detector.py:150 | each term `(c - r) * ln(c / r)` is non-negative, and zero exactly when `c == r` |
| Psi.PsiNonNegative | src/monitoring/drift_detector.py:150 | the PSI sum of two positive vectors is non-negative |
| Psi.PsiZeroIff | src/monitoring/drift_detector.py:150 | the PSI sum is zero exactly when the two vectors are equal |
| Psi.HistogramPsi | src/monitoring/drift_detector.py:146-151 | the PSI of two histograms is NaN exactly when one of them sums to zero |
| Psi.HistogramPsiNonNegative | src/monitoring/drift_detector.py:146-151 | a finite histogram PSI is non-negative |
| Psi.HistogramPsiZeroIff | src/monitoring/drift_detector.py:146-151 | a finite histogram PSI is zero exactly when the floored normalised distributions coincide, and strictly positive otherwise |
| Psi.HistogramPsiProportionalIsZero | src/monitoring/drift_detector.py:146-151 | observed counts in the reference's proportions, in particular equal counts, give a PSI of exactly 0 |
| Detector.NewDetector | src/monitoring/drift_detector.py:51-71 | a fresh detector has no samples; without a readable history file, its history has no timestamps and one empty series per reference feature |
| Detector.WellFormed | src/monitoring/drift_detector.py:139-150 | the reference entries the model computes a PSI for: at least two non-decreasing edges and one count per bin |
| Detector.ShouldCheck | src/monitoring/drift_detector.py:111-113 | the automatic trigger: the buffer holds at least 100 samples and its length is a multiple of 50 |
| Detector.ShouldCheckSchedule | src/monitoring/drift_detector.py:111-113 | the automatic check fires for buffer length `n` exactly when `n = 100 + 50k` for some `k >= 0` |
| Detector.ChecksFiftyApart | src/monitoring/drift_detector.py:111-113 | after one automatic check the next fires exactly 50 samples later, and none fires in between |
| Detector.Values | src/monitoring/drift_detector.py:136 | the feature's values in arrival order, one per sample that carries it: as many as the samples when every sample carries it, none when no sample does |
| Detector.ValuesSnoc | src/monitoring/drift_detector.py:136 | a new sample adds its value to the feature's values when it carries the feature and adds nothing otherwise; earlier values keep their order |
| Detector.CurrentHistogram | src/monitoring/drift_detector.py:136-143 | the observed histogram has one count per reference bin, and its total is the number of samples whose value for the feature lies within the reference edges |
| Detector.CalculatePsi | src/monitoring/drift_detector.py:121-154 | None exactly below 100 samples or for an absent or malformed reference entry; otherwise the histogram PSI of the observed values, which is NaN exactly when no observed value lies within the edges or the reference histogram sums to zero |
| Detector.CalculatePsiNonNegative | src/monitoring/drift_detector.py:146-150 | a finite computed PSI is non-negative |
| Detector.IsDrifting | src/monitoring/drift_detector.py:181 | the drift test: a finite PSI strictly above the threshold; NaN never drifts |
| Detector.ComputedScores | src/monitoring/drift_detector.py:177-179 | below 100 samples no feature is scored; from 100 on, exactly the well-formed reference features are scored, each with the histogram PSI of its observed values |
| Detector.CheckDrift | src/monitoring/drift_detector.py:156-209 | below 100 samples: `insufficient_data` with the exact count, and the detector unchanged. Otherwise: results for exactly the well-formed features; drifting iff PSI is finite and strictly above the threshold; `drift_detected` iff some feature drifts; `sample_count` equals the buffer length; one timestamp and one score per scored feature appended; everything else unchanged |
| Detector.AddSample | src/monitoring/drift_detector.py:85-119 | appends exactly one sample and returns true, also when features are missing (they are reported); a check runs iff the new length triggers; the history is unchanged when no check runs; when one runs, the result and the new detector are exactly those of `check_drift` on the extended buffer |
| Detector.NewDetectorAligned | src/monitoring/drift_detector.py:60-63 | a detector started without a history file has aligned series |
| Detector.CheckDriftKeepsAligned | src/monitoring/drift_detector.py:175-199 | a drift check keeps one series per reference feature, as long as the timestamps for well-formed entries and empty otherwise |
| Detector.StepKeepsAligned | src/monitoring/drift_detector.py:85-119 | one `add_sample` or `check_drift` call keeps the series aligned |
| Detector.RunKeepsAligned | src/monitoring/drift_detector.py:175-199 | every detector reachable by calls from an aligned one stays aligned |
| Detector.RunKeepsBounded | src/monitoring/drift_detector.py:175-199 | from any history whose series are no longer than its timestamps, no sequence of calls lets a series outgrow the timestamps |
| Detector.RunAppendOnly | src/monitoring/drift_detector.py:102-105 | calls only add samples at the end of the buffer and never change the reference or the threshold |
| Visualizer.SeverityColour | src/monitoring/drift_visualizer.py:119-121 | green iff the PSI is finite and below 0.1; orange iff it is in `[0.1, 0.2)`; red iff it is at least 0.2 or NaN |
| Visualizer.ColourMonotone | src/monitoring/drift_visualizer.py:120 | a larger PSI never gets a milder colour |
| Visualizer.ColourBoundaries | src/monitoring/drift_visualizer.py:120 | 0.05 is green, 0.1 and 0.15 are orange, 0.2 and 0.25 are red |
| Visualizer.ColourVersusDrifting | src/monitoring/drift_visualizer.py:120 | with the default threshold every drifting score is red; a red score is not drifting exactly when it is NaN or exactly 0.2 |
| Visualizer.LoadData | src/monitoring/drift_visualizer.py:29-56 | the parsed history is used as is when the history parsed and the reference file, if there is one, also loaded; a missing or unreadable history, or a failing reference load, gives empty timestamps and an empty score map |
| Visualizer.FailedLoadDrawsNothing | src/monitoring/drift_visualizer.py:52-56 | after a failed load the feature plot is the empty figure for every feature and the heatmap has nothing to show |
| Visualizer.PyTail | src/monitoring/drift_visualizer.py:96 | `xs[-k:]` keeps the last `k` elements as a suffix of `xs`, and the whole list when `k` is 0 or at least `len(xs)` |
| Visualizer.AlignSeries | src/monitoring/drift_visualizer.py:93-99 | for non-empty series, both results have the shorter length; each is the most recent suffix of its input, so the shorter input is kept whole |
| Visualizer.UnguardedAlignmentMismatch | src/monitoring/drift_visualizer.py:70-72 | without the empty-scores guard, the alignment would keep every timestamp against no score |
| Visualizer.FeatureDriftPlot | src/monitoring/drift_visualizer.py:68-123 | the empty figure exactly when there are no timestamps, the feature is absent, or its series is empty; otherwise equal-length most-recent suffixes, with one severity colour per score |
| Visualizer.FeaturePlotKeepsScores | src/monitoring/drift_visualizer.py:93-99 | on a bounded history the plot keeps every score and pairs them with the most recent timestamps |
| Visualizer.AlignRow | src/monitoring/drift_visualizer.py:249-257 | a row has exactly `n` entries: the original scores as a prefix (cut to the first `n`), then None padding |
| Visualizer.HeatmapHeight | src/monitoring/drift_visualizer.py:296 | the height is one of 400 and `100 + 30 * features`, and at least both, so it is their maximum |
| Visualizer.HeatmapHeightShape | src/monitoring/drift_visualizer.py:296 | the height never decreases as features are added, and it is 400 exactly for up to ten features |
| Visualizer.HeatmapEmpty | src/monitoring/drift_visualizer.py:210-212 | the heatmap's guard: no timestamps, no feature series, or only empty series |
| Visualizer.DriftHeatmap | src/monitoring/drift_visualizer.py:208-269 | no data exactly when there are no timestamps, no series, or only empty series; otherwise one row per feature in key order, each with one entry per timestamp (score or None), at least one non-empty row, and the computed height |
| Visualizer.HeatmapKeepsScores | src/monitoring/drift_visualizer.py:246-259 | on a bounded history no heatmap row loses a score |

## Left out

- File I/O is not modelled: JSON reading and writing, `os.makedirs`, and history-path
  defaulting. A load is a `HistoryFile` value (`Missing`, `Unreadable` or
  `Parsed`). The visualiser's reference load is a `ReferenceFile` value, and the
  reference statistics it reads are not kept, because no modelled view uses them. A save is a no-op on the in-memory history. Its failure is only
  logged.
- Loading the reference file in `__init__` is not modelled (its `FileNotFoundError`
  and `ValueError`). The detector takes the reference map as given.
- Logging is not modelled. The missing features that `add_sample` warns about are
  returned as `missing`.
- Catch-all `except` blocks are not modelled. In a typed model, `add_sample` cannot
  fail, so it always returns true. `check_drift`'s `error` status needs a stored
  history without `timestamps` or `drift_scores`, which the typed `DriftHistory`
  cannot represent. Non-numeric feature values, which make `calculate_psi` raise,
  cannot occur because values are `real`.
- Detector.CalculatePsi: answers None for every reference entry that is not
  `WellFormed`, which is not always what numpy does. numpy raises on decreasing
  edges and on a count vector it cannot pair with the reference histogram. It
  broadcasts some other shapes and computes a value. With fewer than two edges
  the observed counts are empty, so a reference histogram of at most one entry
  gives a PSI of 0. A single bin (two edges), or a one-entry reference histogram,
  is paired with the other vector entry by entry. These broadcast shapes are not
  modelled. `Detector.Aligned` and `Detector.RunKeepsAligned` rely on the same
  simplification. For such an entry the code does record scores, so its series
  is not empty.
- Floating-point behaviour is not modelled: rounding, and NaN beyond the NaN score
  itself. Sums are exact over `real`.
- Only the sign of the logarithm is known. So no numeric PSI value is proved. For
  example, a sample concentrated in one bin gives a PSI above 0, but the model
  cannot show it is above 0.2.
- The reference's `mean` and `std` are not modelled. No modelled code reads them.
- Timestamps are opaque strings. The model leaves out ISO-8601 generation,
  `fromisoformat` / `strftime`, and the fallbacks used when parsing fails
  (`datetime.now()` per point, or labels "Punto i"). Those fallbacks keep the
  number of timestamps, and only that number matters to the alignment.
- Python stores a sample as `{"timestamp": ..., **sample_data}`. A feature named
  `timestamp` would overwrite the arrival time there; the model keeps the two apart.
- Plotly figure building, colour scales, the shaded bands, the y-axis range, the
  dashboard HTML and `generate_drift_dashboard` are not modelled.
- Python dictionary order is not modelled. The heatmap receives the key order as
  `order`, which must list every key once. The map in `check_drift` does not depend
  on iteration order.
- The model has no concurrency, because the code has none.
