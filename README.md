# brightwind correlation and shear core, modelled in Dafny

This project models two parts of the brightwind wind-resource library. The first is the
bookkeeping around its long-term correlation models (`brightwind/analyse/correlation.py`).
The second is the discrete scaling and dispatch logic of its wind-shear models
(`brightwind/analyse/shear.py`). Properties of the model are proved.

Arithmetic is exact (`real`). A pandas series is a sequence of observations. Each
observation has an integer timestamp in whole seconds and a value that may be NaN
(`Option<real>`, with `None` for NaN). An exception the source raises is the `Err` case of a
`Result`, named after the Python exception (`ValueError`, `KeyError`, `IndexError`,
`ZeroDivisionError`, `AttributeError`, `TypeError`, `NotImplementedError`, `UnboundLocalError`). Library
numerics are parameters of the model: the least-squares fits, `**` and `np.log` on
floats, and the random draws.

What is modelled:

- **SpeedSort** (`SpeedSort.SpeedSortModel`, a class whose fields play the role of
  `self.data`, `self.speed_model` and `self.params`):
  - the per-sector rank-matched fit of `SectorSpeedModel`, with the `for`/`break` search
    for the start index written as a loop;
  - `sector_predict`;
  - the constructor's cutoffs, in-place calm randomisation and low-reference correction
    of the direction columns, followed by binning and `dropna`;
  - `run` tabulating a model and parameters for every sector;
  - the per-sector dispatch of `_predict`;
  - the veer interpolation of `_predict_dir`;
  - the combine-first overlay with negative clamping in `synthesize`.
- **Linear correlation**: the OLS and orthogonal `_predict`, `CorrelBase.get_r2` and
  `CorrelBase.synthesize`.
- **MultipleLinearRegression**: `_merge_ref_spds`, which renames the series objects in
  place, then its inner join, its dot-product `_predict` and `plot`.
- **SimpleSpeedRatio**: the overlap window, the speed ratio, the long-term value, the
  coverage and the poor-coverage warning.
- **Shear**:
  - `_fill_alpha_12x24`, written as a loop that writes blocks into a 24-row array;
  - the TimeOfDay segment start times and `between_time` segments;
  - the three branches of `_apply`: the 24×12 time-of-day cells, the by-sector bounds
    parsed from label strings with their three selection rules, and the `Average` branch;
  - `_scale` and `log_scale`;
  - the `Average` constructor's filter and error checks.

Collaborators whose source is not part of this model enter as parameters or inputs:

- `tf.average_data_by_period` results are input series.
- `tf._get_min_overlap_timestamp` is the window start.
- `tf._get_data_resolution` is a positive number of seconds plus a monthly flag.
- `momm` is an optional real.
- `_binned_direction_series` is a function from direction to an optional sector number,
  assumed to give numbers in `1..sectors`. For `_predict_dir` it is also assumed to give
  the even bin whose edges enclose the direction.
- `utils._range_0_to_360` is taken to be reduction modulo 360 into [0, 360).
- `index.time` and `index.month` are a clock function (seconds into the day) and a month
  function on timestamps.

## Model

| member | source | states |
|---|---|---|
| SpeedSortFit.Ascending | brightwind/analyse/correlation.py:395-396 | `sorted` gives an ascending permutation of the sector's speeds |
| SpeedSortFit.StartIndex | brightwind/analyse/correlation.py:397-401 | the start index is the first position at or above the cutoff when one exists, and 0 (nothing dropped) when none does |
| SpeedSortFit.FindStart | brightwind/analyse/correlation.py:397-401 | the `for`/`break` loop leaves exactly that start index |
| SpeedSortFit.From | brightwind/analyse/correlation.py:402-403 | Python's `s[n:]` is empty past the end and otherwise holds the elements from `n` on |
| SpeedSortFit.HalfMeans | brightwind/analyse/correlation.py:407-411 | the four means are over the halves split at `len(x) // 2`, each NaN when its half is empty |
| SpeedSortFit.Slope | brightwind/analyse/correlation.py:413 | the slope is a number exactly when all four half-means exist and the reference means differ |
| SpeedSortFit.SectorFit | brightwind/analyse/correlation.py:392-414 | `IndexError` exactly when nothing is left of the truncated target list; otherwise slope and offset of the half-means, `target_cutoff` the first kept target value, `data_pts` the smaller kept length |
| SpeedSortFit.NewSectorModel | brightwind/analyse/correlation.py:392-414 | the constructor run step by step equals that fit |
| SpeedSortFit.TruncationAtFirstQualifying | brightwind/analyse/correlation.py:395-403 | both sorted lists lose the same number of leading values, namely those the start index skips |
| SpeedSortFit.CutKeepsAtLeast | brightwind/analyse/correlation.py:397-403 | in an ascending list the kept values together with the values below the cutoff are the whole list |
| SpeedSortFit.KeptAreAtLeastCutoff | brightwind/analyse/correlation.py:395-403 | once a reference value reaches the cutoff, the kept reference values are the input minus exactly those below the cutoff (as multisets) |
| SpeedSortFit.LineThroughHalfMeans | brightwind/analyse/correlation.py:413-414 | the fitted line passes through both pairs of half-means |
| SpeedSortFit.SectorFitDefined | brightwind/analyse/correlation.py:402-405 | lists of equal non-zero length always give a model whose `data_pts` is the kept reference length |
| SpeedSortFit.SectorPredict | brightwind/analyse/correlation.py:417-420 | `sector_predict` keeps every timestamp, and gives a value exactly where the input has one and the fit has a slope and an offset |
| SpeedSortFit.SectorPredictConcat | brightwind/analyse/correlation.py:417-420 | prediction distributes over concatenation of the input |
| SpeedSortFit.SectorPredictIsLinear | brightwind/analyse/correlation.py:417-420 | a defined sector model predicts with the ordinary linear prediction |
| SpeedSortFit.SpeedCutoff | brightwind/analyse/correlation.py:500 | the cutoff is the smaller of `0.5·lt_ref_speed` and 4 |
| SpeedSortFit.VeerCutoff | brightwind/analyse/correlation.py:537-538 | `0.5·(6 + 0.5·mean)`, that is `3 + mean/4`, and NaN for a column without values |
| SpeedSortFit.VeerCutoffBounds | brightwind/analyse/correlation.py:537-538 | speeds in `[lo, hi]` give a veer cutoff in `[3 + lo/4, 3 + hi/4]` |
| Angles.Wrap360 | brightwind/analyse/correlation.py:534 | the reduced angle lies in [0, 360) and differs from its argument by whole turns |
| Angles.WrapOpt | brightwind/analyse/correlation.py:533-534 | a NaN stays NaN and a number lands in [0, 360) |
| Angles.Veer | brightwind/analyse/correlation.py:541-551 | the veer is NaN exactly when either direction is NaN |
| Angles.VeerInRange | brightwind/analyse/correlation.py:541-551 | for directions in [0, 360) the veer lies in [-180, 180] and differs from target minus reference by -360, 0 or 360 |
| Angles.VeerReachesBothEnds | brightwind/analyse/correlation.py:543-548 | the fold leaves both 180 and -180 as they are |
| Angles.VeerAntisymmetric | brightwind/analyse/correlation.py:541-551 | swapping the directions negates the veer, except at a half-turn |
| SpeedSortRows.RandomizedCalm | brightwind/analyse/correlation.py:517-521 | only the direction of a row whose own speed is below 1 changes, and it becomes a direction in [0, 360); every other row and column is kept |
| SpeedSortRows.VeersInRange | brightwind/analyse/correlation.py:523-527 | every averaged veer lies in [-180, 180] when the directions lie in [0, 360) |
| SpeedSortRows.OverallVeer | brightwind/analyse/correlation.py:523-527 | the overall veer is NaN exactly when no row has both speeds at or above their veer cutoffs |
| SpeedSortRows.OverallVeerInRange | brightwind/analyse/correlation.py:523-527 | with directions in [0, 360) the overall veer lies in [-180, 180] |
| SpeedSortRows.AdjustedLowReference | brightwind/analyse/correlation.py:529-534 | only rows with reference speed below 2 and target speed more than 4 above it change, and only in the reference direction, which becomes `tar_dir - overall_veer` reduced into [0, 360) (NaN if either is NaN) |
| SpeedSortRows.BinRows | brightwind/analyse/correlation.py:508-511 | the binned frame holds exactly the rows with every value and a bin, each with its reference direction's bin |
| SpeedSortRows.BinRowsInRange | brightwind/analyse/correlation.py:508-511 | with an in-range binning every kept row has a sector in `1..sectors` |
| SpeedSortRows.Group | brightwind/analyse/correlation.py:566 | the `groupby` group of a sector holds exactly the rows of that sector |
| SpeedSortRows.AvgVeerCount | brightwind/analyse/correlation.py:553-558 | `num_pts_for_veer` counts exactly the veers `_avg_veer` averages |
| SpeedSortRows.SectorVeerInRange | brightwind/analyse/correlation.py:553-558 | a sector's average veer exists exactly when it counts points, and then lies in [-180, 180] |
| SpeedSortRows.FittedModelFits | brightwind/analyse/correlation.py:567-569 | a non-empty group always has a sector model, whose data points are the kept reference length |
| SpeedSortRows.SectorsWithRows | brightwind/analyse/correlation.py:566 | the sectors `run` visits are exactly those with a non-empty group |
| SpeedSortRows.SectorsWithRowsOccur | brightwind/analyse/correlation.py:566 | with sectors in `1..n` those are the bins that occur in the frame |
| SpeedSortRows.SpeedBins | brightwind/analyse/correlation.py:614-617 | every row `_predict` groups comes from a joined row with both values and a sector for its direction |
| SpeedSortRows.SpeedBinsSorted | brightwind/analyse/correlation.py:614-617 | a time-ordered join gives time-ordered grouped rows |
| SpeedSortRows.GroupPrediction | brightwind/analyse/correlation.py:619-625 | `sector_predict` on a group's speeds is that group's part of the concatenation |
| SpeedSortRows.PredictResult | brightwind/analyse/correlation.py:613-627 | `_predict` raises `KeyError` exactly when a row's sector has no model |
| SpeedSortRows.PredictResultOk | brightwind/analyse/correlation.py:619-627 | when every sector that occurs has a model, the result is the sorted concatenation of the sectors' predictions |
| SpeedSortRows.PredictResultMissing | brightwind/analyse/correlation.py:621-624 | a sector that occurs without a model raises `KeyError` |
| SpeedSortRows.PredictRowByRow | brightwind/analyse/correlation.py:613-627 | a successful `_predict` is time-ordered and is every joined row mapped, in time order, through the model of its own sector: nothing is dropped or predicted twice |
| SpeedSortRows.Reassembled | brightwind/analyse/correlation.py:619-627 | sorting the concatenation of the sector predictions of time-ordered rows gives the row-by-row prediction |
| SpeedSortRows.SectorVeers | brightwind/analyse/correlation.py:594-598 | `sec_veer` has `sectors + 1` entries, the last repeating sector 1's, and is a `KeyError` exactly when a sector has no parameters |
| SpeedSortRows.Adjustment | brightwind/analyse/correlation.py:608-610 | the adjustment exists exactly when both neighbouring veers do, and equals `sec_veer[b-1]` at ratio 0 |
| SpeedSortRows.RatioInUnit | brightwind/analyse/correlation.py:606-607 | a direction inside its even bin has a ratio in [0, 1) |
| SpeedSortRows.AdjustmentBetween | brightwind/analyse/correlation.py:608-610 | for a ratio in [0, 1] the adjustment lies between the two neighbouring sector veers |
| SpeedSortRows.DirPrediction | brightwind/analyse/correlation.py:610-611 | a predicted direction lies in [0, 360) and exists exactly when both neighbouring veers do |
| SpeedSortRows.VeerInterpolation | brightwind/analyse/correlation.py:599-611 | inside its bin the ratio is in [0, 1), the adjustment at the lower edge is the bin's own veer, and it lies between the two veers |
| SpeedSortRows.DirPredictionTurns | brightwind/analyse/correlation.py:610-611 | the predicted direction is direction plus adjustment, modulo whole turns |
| SpeedSortRows.EvenBinEncloses | brightwind/analyse/correlation.py:599-605 | under even bins every direction in [0, 360) is inside the bin it is given |
| SpeedSortRows.DirRows | brightwind/analyse/correlation.py:604-611 | one output per valued direction with a veer bin, in its order, each that direction moved by its bin's interpolated veer and lying in [0, 360) |
| SpeedSortRows.PredictDirResult | brightwind/analyse/correlation.py:593-611 | `_predict_dir` raises `KeyError` when a sector lacks parameters and `ZeroDivisionError` without sectors; otherwise the result is time-ordered with directions in [0, 360) |
| SpeedSortRows.PredictDirRowByRow | brightwind/analyse/correlation.py:604-611 | on a time-ordered series a successful `_predict_dir` holds, in time order, exactly one direction for every valued direction with a veer bin, each moved by its own bin's interpolated veer |
| SpeedSortRows.Clamp | brightwind/analyse/correlation.py:645 | clamping never leaves a negative speed and keeps non-negative ones |
| SpeedSortRows.SynthesizeResult | brightwind/analyse/correlation.py:629-647 | one input without the other fails with `AttributeError`; a result names its columns `<target>_Synthesized` |
| SpeedSortRows.SynthesizedSpeedsNonNegative | brightwind/analyse/correlation.py:645 | no synthesized speed is negative |
| SpeedSortRows.SynthesizeKeepsMeasurements | brightwind/analyse/correlation.py:632-638 | without inputs, every synthesized speed is the clamped averaged target value where one exists and the clamped prediction elsewhere |
| SpeedSortRows.AssembledSpeeds | brightwind/analyse/correlation.py:645-647 | every row of the output frame carries the clamped speed at its time |
| SpeedSort.SpeedSortModel.constructor | brightwind/analyse/correlation.py:496-512 | the cutoffs, then calm randomisation, overall veer, low-reference correction and binning, in that order, with empty models and parameters |
| SpeedSort.SpeedSortModel.Prepare | brightwind/analyse/correlation.py:503-511 | the constructor's rewrites of the frame in order, each as its specification function says |
| SpeedSort.SpeedSortModel.RandomizeCalmPeriods | brightwind/analyse/correlation.py:517-521 | the frame is replaced by its calm-randomised version |
| SpeedSort.SpeedSortModel.GetOverallVeer | brightwind/analyse/correlation.py:523-527 | the overall veer of the current frame is stored |
| SpeedSort.SpeedSortModel.AdjustLowReferenceSpeedDir | brightwind/analyse/correlation.py:529-534 | the frame is replaced by its low-reference-corrected version |
| SpeedSort.SpeedSortModel.BinData | brightwind/analyse/correlation.py:508-511 | the binned frame is stored, and every binned sector is in range |
| SpeedSort.SpeedSortModel.Run | brightwind/analyse/correlation.py:560-576 | the run-wide parameters are stored, and the models and sector parameters are tabulated on exactly the sectors with rows |
| SpeedSort.SpeedSortModel.FitSector | brightwind/analyse/correlation.py:566-576 | a sector with rows gets its fitted model and parameters; a sector without rows leaves both maps unchanged |
| SpeedSort.SpeedSortModel.Predict | brightwind/analyse/correlation.py:613-627 | the loop over sectors returns `_predict`'s specified result |
| SpeedSort.SpeedSortModel.PredictSector | brightwind/analyse/correlation.py:619-625 | one sector's part, or a missing model exactly when the sector occurs without one |
| SpeedSort.SpeedSortModel.PredictDir | brightwind/analyse/correlation.py:593-611 | the loops return `_predict_dir`'s specified result |
| SpeedSort.SpeedSortModel.Synthesize | brightwind/analyse/correlation.py:629-647 | `synthesize` returns its specified result |
| CorrelBase.LinearPredict | brightwind/analyse/correlation.py:157-158 | the prediction keeps the index and is NaN exactly where the reference is |
| CorrelBase.LinearPredictInverse | brightwind/analyse/correlation.py:199-200 | with a non-zero slope the reference value is recovered from its prediction |
| CorrelBase.LinearPredictMonotone | brightwind/analyse/correlation.py:222-226 | with a positive slope the prediction keeps the order of the reference values |
| CorrelBase.LinearPredictAt | brightwind/analyse/correlation.py:157-158 | reading the prediction at a timestamp predicts the value read there |
| CorrelBase.Linear | brightwind/analyse/correlation.py:158 | the line gives a number exactly for a number, NaN for NaN |
| CorrelBase.SqDiff | brightwind/analyse/correlation.py:97 | a squared difference is never negative, and NaN when either side is |
| CorrelBase.SqDiffZero | brightwind/analyse/correlation.py:97 | a squared difference is zero exactly when the values are equal |
| CorrelBase.PySum | brightwind/analyse/correlation.py:97-98 | Python's `sum` is NaN exactly when a term is NaN |
| CorrelBase.PySumNonNegative | brightwind/analyse/correlation.py:97-98 | a sum of non-negative terms is non-negative, and zero exactly when every term is |
| CorrelBase.R2 | brightwind/analyse/correlation.py:95-98 | `get_r2` raises `ZeroDivisionError` exactly on an empty frame |
| CorrelBase.R2AtMostOne | brightwind/analyse/correlation.py:95-98 | a defined score is at most one |
| CorrelBase.R2OneIffExact | brightwind/analyse/correlation.py:95-98 | the score is one exactly when the line predicts every target |
| CorrelBase.R2Defined | brightwind/analyse/correlation.py:95-98 | the score is a number exactly on a non-empty frame without NaN whose targets are not all equal |
| CorrelBase.TotalZeroIffConstant | brightwind/analyse/correlation.py:98 | the total sum of squares is zero exactly when all targets are equal |
| CorrelBase.R2OfMean | brightwind/analyse/correlation.py:95-98 | predicting every target by their mean scores zero |
| CorrelBase.Synthesize | brightwind/analyse/correlation.py:79-93 | the column is named `<target>_Synthesized`; with an external input it is that input's prediction |
| CorrelBase.SynthesizeKeepsMeasurements | brightwind/analyse/correlation.py:82-86 | without input the result covers both averaged indexes, keeps every measured target value and predicts the rest from the reference |
| MultipleRegression.Str | brightwind/analyse/correlation.py:279 | `str(n)` is a non-empty run of digits |
| MultipleRegression.StrInjective | brightwind/analyse/correlation.py:279 | different numbers print differently |
| MultipleRegression.RefSeries.constructor | brightwind/analyse/correlation.py:276-279 | a series object holds its own name and values; the objects are what the renaming mutates |
| MultipleRegression.SuffixInjective | brightwind/analyse/correlation.py:279 | a name ending in `_<number>` determines the number |
| MultipleRegression.RenamedCopiesDistinct | brightwind/analyse/correlation.py:276-280 | the intended renaming gives pairwise distinct names whatever the input names are |
| MultipleRegression.MergeRefSpds | brightwind/analyse/correlation.py:276-280 | each object's name gains the suffixes of every position it occupies, and the result is the inner join under the new names |
| MultipleRegression.DistinctSuffixes | brightwind/analyse/correlation.py:278-279 | when no object occurs twice, the object at position `k` gets exactly `_<k+1>` |
| MultipleRegression.MergeDistinctObjects | brightwind/analyse/correlation.py:276-280 | without repeated objects the renaming is the intended one |
| MultipleRegression.AliasedSeriesShareName | brightwind/analyse/correlation.py:278-279 | one object passed twice gets both suffixes, so both columns carry one name |
| MultipleRegression.InnerRowsCorrect | brightwind/analyse/correlation.py:280 | the joined rows are in time order, at exactly the timestamps every series has, with each series' value |
| MultipleRegression.ConcatInner | brightwind/analyse/correlation.py:280 | `pd.concat` of no series raises `ValueError`; otherwise the columns carry the given names |
| MultipleRegression.RowPredict | brightwind/analyse/correlation.py:292-296 | a row of the wrong width raises `ValueError`; the prediction is NaN exactly when a value is NaN |
| MultipleRegression.DotPredict | brightwind/analyse/correlation.py:292-296 | `_predict` is `linear_function` on every row, failing exactly when some row has the wrong width |
| MultipleRegression.OneReferenceIsLinear | brightwind/analyse/correlation.py:293-294 | with one reference the regression predicts with the ordinary line |
| MultipleRegression.RowPredictAdditive | brightwind/analyse/correlation.py:293-294 | the prediction is additive in the slopes and offsets |
| MultipleRegression.Plot | brightwind/analyse/correlation.py:313-314 | `plot` raises `NotImplementedError` |
| SpeedRatio.LastValid | brightwind/analyse/correlation.py:353 | the latest timestamp with a value, at or after every other one |
| SpeedRatio.NewSpeedRatio | brightwind/analyse/correlation.py:349-355 | as written the window ends at the reference's last valid timestamp, and both windows hold exactly their series' rows in `[start, end]` |
| SpeedRatio.NewSpeedRatioCorrected | brightwind/analyse/correlation.py:353 | the intended end is the earlier of the two last valid timestamps |
| SpeedRatio.Ratio | brightwind/analyse/correlation.py:362 | the ratio of means exists exactly when both means do and the reference mean is not zero, and times the reference mean gives the target mean |
| SpeedRatio.RoundHalfEven | brightwind/analyse/correlation.py:369-371 | `np.round` gives the nearest whole number, ties to even |
| SpeedRatio.Coverage | brightwind/analyse/correlation.py:372 | coverage times `max_pts` is the count, and does not exist for zero `max_pts` |
| SpeedRatio.CoverageOfTwo | brightwind/analyse/correlation.py:368-383 | two target values at one-second resolution are warned about over a window three seconds long and not over one a second long |
| SpeedRatio.Run | brightwind/analyse/correlation.py:360-383 | the ratio of the window means, `momm`, their product as the long-term value, the coverage, and a warning exactly when the coverage is below 0.9 |
| SpeedRatio.RatioOfScaledMeans | brightwind/analyse/correlation.py:362 | the ratio of means, NaN cases included, is unchanged when both sides are scaled by one non-zero factor |
| SpeedRatio.RatioScaleInvariant | brightwind/analyse/correlation.py:352-362 | scaling both series by one non-zero factor changes neither the window end nor the speed ratio |
| SpeedRatio.LongReferenceWarns | brightwind/analyse/correlation.py:353 | as written, a complete target under a longer reference is warned about |
| SpeedRatio.LongReferenceCorrectedNoWarning | brightwind/analyse/correlation.py:353 | with the intended window end the same target is not warned about |
| SpeedRatio.CorrectedWindowInsideBoth | brightwind/analyse/correlation.py:352-354 | with the intended end both windows lie inside both series' valid periods |
| AlphaGrid.FillResult | brightwind/analyse/shear.py:758-777 | `int(24 / len(df))` raises `ZeroDivisionError` exactly on a frame without rows |
| AlphaGrid.FillAlpha12x24 | brightwind/analyse/shear.py:758-777 | the block writes into the rotated 24-row frame, followed by the sort, give the reference fill |
| AlphaGrid.HoursOfDay | brightwind/analyse/shear.py:763 | the new frame's index is the 24 hours 0:00 to 23:00 in order |
| AlphaGrid.WriteBlock | brightwind/analyse/shear.py:772 | an `iloc` block write sets rows `lo` to `hi - 1` to the given values and leaves every other row as it was |
| AlphaGrid.Unrotate | brightwind/analyse/shear.py:774 | the rotated, filled frame is a permutation of the hour-ordered fill, which is strictly ordered by hour |
| AlphaGrid.SortedFill | brightwind/analyse/shear.py:774 | `sort_index` on the filled frame undoes the rotation |
| AlphaGrid.RotationHours | brightwind/analyse/shear.py:766-769 | after the rotation, position `p` holds the row of hour `(h0 + p) mod 24` |
| AlphaGrid.FillCoarseRow | brightwind/analyse/shear.py:771-772 | coarse row `i` fills the hours `(h0 + i·interval + k) mod 24`, for `0 <= k < interval` |
| AlphaGrid.FillShape | brightwind/analyse/shear.py:763-777 | the output has 24 rows labelled 0:00 to 23:00 in order, with the input's columns |
| AlphaGrid.FillTailIsNan | brightwind/analyse/shear.py:771-772 | the `24 mod n` hours past the last whole block stay NaN |
| ShearTimeOfDay.SegmentStarts | brightwind/analyse/shear.py:81-87 | start `i` is `day_start_time + i·(24 div segments)` hours as a time of day; zero segments raise `ZeroDivisionError` and negative ones `ValueError` |
| ShearTimeOfDay.StartStep | brightwind/analyse/shear.py:86-87 | each start is the previous one plus the interval, modulo a day |
| ShearTimeOfDay.SegmentOf | brightwind/analyse/shear.py:95-106 | every time of day has a segment number in range |
| ShearTimeOfDay.SegmentIsBlock | brightwind/analyse/shear.py:95-106 | for 2 to 24 segments, segment `i` is the block from `i` intervals after the first start to the next start; the last segment runs on to the first start |
| ShearTimeOfDay.SegmentsPartitionDay | brightwind/analyse/shear.py:95-106 | for 2 to 24 segments a time of day lies in segment `i` exactly when `i` is its segment number |
| ShearTimeOfDay.SingleSegmentEmpty | brightwind/analyse/shear.py:95-99 | as written a single segment selects nothing |
| ShearTimeOfDay.SegmentsPartitionDayCorrected | brightwind/analyse/shear.py:95-106 | with one segment read as the whole day, the segments partition the day for every count from 1 to 24 |
| ShearTimeOfDay.UnevenSegmentsLeaveHoursEmpty | brightwind/analyse/shear.py:761-772 | five segments from 07:00 leave 03:00 NaN although it lies in the last segment |
| ShearTimeOfDay.CorrectedFillFollowsSegments | brightwind/analyse/shear.py:95-106 | the corrected fill gives every hour the row of the segment that contains it |
| ShearTimeOfDay.TimeOfDayResult | brightwind/analyse/shear.py:650-685 | a success fills the grids first and then runs the cell loop on them |
| ShearTimeOfDay.ApplyTimeOfDay | brightwind/analyse/shear.py:650-685 | fill, cell loop and sort return the specified result |
| ShearTimeOfDay.FillGrids | brightwind/analyse/shear.py:652-657 | the power-law grid, or the slope and intercept grids, are filled |
| ShearTimeOfDay.ApplyCells | brightwind/analyse/shear.py:662-685 | the 24×12 loop returns the specified cell result |
| ShearTimeOfDay.ApplyHour | brightwind/analyse/shear.py:663-683 | one hour of the loop appends that hour's twelve cell parts, or raises the loop's error |
| ShearTimeOfDay.CellLoopError | brightwind/analyse/shear.py:662-680 | the loop succeeds exactly when the grid has at least 12 month columns and, for the power law, the height is not zero |
| ShearTimeOfDay.CellUnique | brightwind/analyse/shear.py:665-671 | an observation with a valid time and month lies in exactly one of the 24×12 cells |
| ShearTimeOfDay.TimeOfDayScalesEveryRow | brightwind/analyse/shear.py:662-685 | a successful result is the input in its own order, every observation scaled once by its own cell's value |
| ShearTimeOfDay.FilledScalesEveryRow | brightwind/analyse/shear.py:662-685 | on filled grids, a successful cell loop gives the input in its own order, every observation scaled once by its own cell |
| ShearTimeOfDay.FilledIsAssigned | brightwind/analyse/shear.py:662-685 | the concatenated and sorted cell parts equal the row-by-row mapping of each observation through its cell |
| ShearTimeOfDay.FillFit | brightwind/analyse/shear.py:652-657 | filling keeps the kind of fit: a power-law grid stays one, slope and intercept grids stay a pair |
| ShearTimeOfDay.CellCoordinates | brightwind/analyse/shear.py:665-671 | an observation's cell is `(hour of day, month - 1)` |
| Labels.DecimalLabel | brightwind/analyse/shear.py:703-705 | a label `a.b-c.d` reads as the numbers `a.b` and `-c.d`, because the dash is taken as a sign |
| Labels.IntegerLabel | brightwind/analyse/shear.py:703-705 | a label `a-c` of whole numbers reads as `a` and `c` |
| Labels.SectorBounds | brightwind/analyse/shear.py:702-705 | bound `i` is label `i`'s first number and the closing bound is the negated second number of the last label; an unreadable label raises `IndexError` |
| Labels.ReadSectorBounds | brightwind/analyse/shear.py:702-705 | the bound loop returns those bounds |
| Labels.DecimalLabelBounds | brightwind/analyse/shear.py:702-705 | for labels `a.b-c.d` the bounds are the labels' first decimals and the last label's second decimal |
| ShearBySector.SectorsDisjoint | brightwind/analyse/shear.py:708-718 | under well-formed bounds no direction in [0, 360) lies in two sectors |
| ShearBySector.SectorsCover | brightwind/analyse/shear.py:708-718 | a layout that wraps past north or ends at 360 leaves no direction without a sector |
| ShearBySector.FirstSector | brightwind/analyse/shear.py:707-718 | the first sector whose rule selects a direction, or none |
| ShearBySector.BySectorResult | brightwind/analyse/shear.py:688-738 | `ValueError` exactly when `wdir` is missing |
| ShearBySector.ApplyBySector | brightwind/analyse/shear.py:688-738 | the join, bound and sector loops return the specified result |
| ShearBySector.BySectorOkValue | brightwind/analyse/shear.py:701-737 | a success has `sectors + 1` bounds and is the sorted concatenation of the scaled sector selections |
| ShearBySector.BySectorSortedPermutation | brightwind/analyse/shear.py:708-737 | a success is time-ordered and holds each row's scaled speed once for every sector selecting it |
| ShearBySector.BySectorScalesEachRowOnce | brightwind/analyse/shear.py:698-738 | with well-formed bounds the result is the joined rows in time order, each scaled by its own sector's exponent |
| ShearBySector.RowSectorUnique | brightwind/analyse/shear.py:708-718 | a sector selects a row exactly when it is the row's sector |
| ShearBySector.RowSectorIsGroup | brightwind/analyse/shear.py:708-718 | under well-formed bounds each row is selected by at most its own sector, and every sector number is in range |
| ShearScale.ParseCalcMethod | brightwind/analyse/shear.py:247-261 | any method other than `power_law` and `log_law` raises `ValueError` |
| ShearScale.ParseMethodName | brightwind/analyse/shear.py:247-261 | both method names are accepted, each as its own method |
| ShearScale.LogScaleIsRatio | brightwind/analyse/shear.py:487-495 | `log_scale` multiplies the speed by `G2/G1`, and is defined exactly when `G1 != 0` |
| ShearScale.LogScaleSameHeight | brightwind/analyse/shear.py:487-495 | scaling to the same height gives the speed back |
| ShearScale.PowerFactor | brightwind/analyse/shear.py:632 | `(h2/h) ** alpha` raises `ZeroDivisionError` exactly for a zero height |
| ShearScale.PowerScale | brightwind/analyse/shear.py:631-635 | the power-law branch fails exactly for a zero height |
| ShearScale.PowerScaleUniform | brightwind/analyse/shear.py:631-635 | every scaled speed keeps its timestamp, and all rows have the same ratio of scaled to original speed |
| ShearScale.PowerScaleNaN | brightwind/analyse/shear.py:631-635 | a NaN exponent makes every scaled speed NaN |
| ShearScale.PowerScaleSameHeight | brightwind/analyse/shear.py:631-635 | scaling to the same height changes nothing |
| ShearScale.LogScaleSeries | brightwind/analyse/shear.py:637-638 | the log-law branch keeps the index |
| ShearAverage.RetainedRows | brightwind/analyse/shear.py:241-243 | the kept readings are exactly those with every height above the minimum speed |
| ShearAverage.AverageFit | brightwind/analyse/shear.py:241-271 | as written: `ValueError` when no reading is retained, there are no heights, or the method is unknown; `UnboundLocalError` for the log law, because only the power law binds `alpha`, which the `info` dictionary reads; otherwise the power-law fit of the mean speeds |
| ShearAverage.LogLawAverageFails | brightwind/analyse/shear.py:252-271 | as written, a log-law object with some reading above `min_speed` is never built: `UnboundLocalError` |
| ShearAverage.AverageFitCorrected | brightwind/analyse/shear.py:241-261 | the intended constructor: `ValueError` exactly when no reading is retained, there are no heights, or the method is unknown; otherwise the fit of the mean speeds for the method named |
| ShearAverage.LogLawAverageCorrectedFits | brightwind/analyse/shear.py:252-258 | corrected, a log-law object with some reading above `min_speed` carries the slope and intercept of the log fit of the mean speeds |
| ShearAverage.MeanSpeedsAboveMinimum | brightwind/analyse/shear.py:243 | every mean the fit sees is above `min_speed` |
| ShearAverage.MeanSpeedsCount | brightwind/analyse/shear.py:243-245 | one mean per height when some reading is retained, none otherwise |
| ShearAverage.AverageApply | brightwind/analyse/shear.py:740-753 | a warning exactly when `wdir` is given; only the power law with a zero height fails; the index is kept |
| ShearAverage.AverageIgnoresTargetHeight | brightwind/analyse/shear.py:747-749 | as written the power-law branch returns the speeds unchanged, whatever the target height |
| ShearAverage.AverageApplyCorrected | brightwind/analyse/shear.py:740-753 | the same warning and error conditions with the intended target height |
| ShearAverage.AverageCorrectedScalesToTarget | brightwind/analyse/shear.py:747-749 | corrected, every speed is multiplied by `(height_to_scale_to / height) ** alpha` |
| ShearApply.Apply | brightwind/analyse/shear.py:645-755 | `_apply` takes the branch of the object's origin, and warns exactly for an `Average` object given a direction series |
| ShearApply.ApplyObject | brightwind/analyse/shear.py:195-197 | the classes' `apply` methods never warn, and only `BySector.apply` passes a direction series on |
| TimeSeries.CombineFirstCorrect | brightwind/analyse/correlation.py:85-86 | `combine_first` is ordered over the union of the indexes, taking the first series' value where it is not NaN |
| TimeSeries.InnerJoinCorrect | brightwind/analyse/correlation.py:614-617 | the inner join is ordered, at exactly the shared timestamps, with both values |
| TimeSeries.OuterJoinCorrect | brightwind/analyse/shear.py:698 | the outer join is ordered over the union of the indexes, NaN where a side has no row |
| TimeSeries.DropNa | brightwind/analyse/correlation.py:614 | `dropna` keeps exactly the observations with a value, in their order |
| TimeSeries.Window | brightwind/analyse/correlation.py:354 | slicing by `[start:end]` keeps exactly the observations in the closed window, in their order |
| TimeSeries.Where | brightwind/analyse/correlation.py:518 | a boolean mask keeps exactly the observations it holds for, in their order |
| Stats.Mean | brightwind/analyse/correlation.py:362 | the mean of the values exists exactly when there is at least one |
| Stats.MeanScaled | brightwind/analyse/correlation.py:362 | scaling every value scales the mean by the same factor |
| Stats.MeanBounds | brightwind/analyse/correlation.py:538 | a mean lies between any lower and upper bound of its values |
| Stats.MeanOrdered | brightwind/analyse/correlation.py:407-411 | when every value of one list is at most every value of another, the first mean is at most the second |
| Sorting.SortBy | brightwind/analyse/shear.py:685 | `sort_index` returns a permutation of its input |
| Sorting.SortBySorted | brightwind/analyse/shear.py:685 | the result is ordered by the index |
| Sorting.SortedPermutationUnique | brightwind/analyse/shear.py:737 | an ordered permutation of a strictly ordered sequence is that sequence, so the sorted result is determined by its contents |
| Reassembly.SortedPartsAreAssigned | brightwind/analyse/shear.py:730-737 | when each row belongs to at most one group, sorting the concatenated group parts gives the row-by-row mapping |
| Reassembly.SortedPartsArePermutation | brightwind/analyse/shear.py:730-737 | the sorted concatenation is time-ordered and holds exactly each row's contributions |
| Reassembly.PartsPermutesPerRow | brightwind/analyse/shear.py:730-733 | the concatenated group parts hold the same rows as the row-by-row contributions |

## Left out

- Least-squares fits (`lstsq`, `ODR`, `np.polyfit`, `_calc_power_law`, `_calc_log_law`, `_calc_roughness_coeff`) are function parameters, or their results are inputs. The fit is not derived.
- `np.log` and `**` on floats are inputs (`lnH`, `lnH2`) or a `pow` parameter. `log_roughness_scale` is not modelled.
- Floating point: there is no rounding. NaN and the infinities from dividing by zero are both `None`. `nan_to_num` and float formatting are not modelled.
- `np.random.random` is a per-row draw `u` in [0, 1), supplied by the caller. The direction it writes is `360·u`.
- `tf.average_data_by_period`, `tf.merge_datasets_by_period`, `tf._get_min_overlap_timestamp`, `tf._get_data_resolution`, `momm` and `coverage`: their results are inputs. The constructor takes `lt_ref_speed` as given.
- `_binned_direction_series` is a function parameter assumed to give sectors `1..sectors`. For `_predict_dir`, it is also assumed to give even bins.
- `utils._range_0_to_360` is modelled as reduction modulo 360 into [0, 360). Its source is not part of this model.
- The custom-bin branch of `_predict_dir` (`direction_bin_array` given) is not modelled; only the even-bin branch is.
- SpeedSort.SpeedSortModel.Run: `num_total_pts` is the group size. That equals `min(group.count())`, because binned rows have no NaN.
- The TimeOfDay constructor's month loop, means and fits are not modelled. Its segment start times and `between_time` segments are.
- A log-law `Average` object exists only through `ShearAverage.AverageFitCorrected`; the log-law case of `ShearAverage.AverageApply` is modelled on such an object.
- The BySector constructor and `Shear.scale` are not modelled. `_apply` is modelled with the fitted values it reads.
- ShearBySector.BySectorResult: the log law reads a `slope` attribute that a `BySector` object does not have. It is modelled as `TypeError` once any row is selected, not as the exact Python error.
- Plotting, `show_params`, `get_result_table`, `plot_model`, `plot_wind_directions`, `__repr__`, the progress widget and the `info` dictionaries are not modelled. The warnings are a returned flag.
- `MultipleLinearRegression.run`, `.synthesize` and `.get_r2` are not modelled, and neither are the `run` methods of the linear models. Their fitted parameters are inputs.
- The `SVR` stub and `brightwind/export/export.py` are not modelled.
- `_apply` selects rows by `index.time` and `index.month`. Here these are a clock function and a month function of the timestamp; calendar arithmetic is not modelled.

## Findings

| source | as written | input that shows it | evidently intended | confidence | as-written member | corrected member |
|---|---|---|---|---|---|---|
| brightwind/analyse/correlation.py:353 | `min(ref_spd.dropna().index.max(), ref_spd.dropna().index.max())` takes the reference's end twice | reference valid at t = 0 and 3, target valid at t = 0 and 1, one-second resolution: coverage 2/3, warned | the earlier of the two series' last valid timestamps; the same target then has coverage 2, no warning | not executed | SpeedRatio.LongReferenceWarns | SpeedRatio.LongReferenceCorrectedNoWarning |
| brightwind/analyse/shear.py:748 | the power-law `Average` branch passes `height_to_scale_to=height` | any series, with `height_to_scale_to` different from `height`: the speeds come back unchanged | scale to `height_to_scale_to` | not executed | ShearAverage.AverageIgnoresTargetHeight | ShearAverage.AverageCorrectedScalesToTarget |
| brightwind/analyse/shear.py:761-772 | `_fill_alpha_12x24` spreads each segment over `int(24 / n)` hours from the first start | five segments from 07:00: hours 03:00 to 06:00 stay NaN, although they lie in the last segment | every hour takes the row of the segment that contains it | not executed | ShearTimeOfDay.UnevenSegmentsLeaveHoursEmpty | ShearTimeOfDay.CorrectedFillFollowsSegments |
| brightwind/analyse/shear.py:95-99 | with `daily_segments=1` the only segment runs from start 0 to start 0 | `between_time(start, start, include_end=False)` selects nothing | one segment covering the whole day | not executed | ShearTimeOfDay.SingleSegmentEmpty | ShearTimeOfDay.SegmentsPartitionDayCorrected |
| brightwind/analyse/correlation.py:276-280 | `_merge_ref_spds` renames the series objects in place | one series object passed twice: both columns are named `<name>_1_2` | each position gets its own suffix, so the names are distinct | not executed | MultipleRegression.AliasedSeriesShareName | MultipleRegression.MergeDistinctObjects |
| brightwind/analyse/shear.py:271 | `output_data['alpha'] = alpha` runs for every method, but only the power-law branch binds `alpha` | `calc_method='log_law'` with any reading above `min_speed`: `UnboundLocalError` | a log-law object carrying its slope and intercept | not executed | ShearAverage.LogLawAverageFails | ShearAverage.LogLawAverageCorrectedFits |
