# GemMa sign recognition core, modelled in Dafny

GemMa recognises sign-language gestures from two modalities at once: a camera
run through MediaPipe, and a hand-tracking sensor (Ultraleap). For each
modality there is a reference corpus of recorded gestures. The recognition
engine, `SignRecorder`, is a tick-driven state machine:

- `record()` arms it and zeroes every distance in both corpora.
- While it is recording, each tick appends one landmark frame per hand per
  modality to four buffers, until `seq_len` frames are held.
- The next tick has both corpora re-scored against the recording by dynamic
  time warping (DTW).
- That same tick fuses the two scorings into one predicted gesture name. The
  name is held until the engine is armed again.

The fusion step (`_choose_sign`) works in three stages:

1. It computes a presence score per modality from the all-zero frames, the
   frames where a hand was not seen.
2. A frequency fast path looks at the first `batch_size` rows of the camera
   scoring.
3. Otherwise a fallback takes the per-name mean distances, keeps the four
   best names, rescales them by reversed min-max, weights them by presence,
   adds the two series by name and takes the maximum.

An evaluation script, `count_outliers`, counts camera frames without a hand,
and those that the sensor missed as well.

The model has these modules:

- `Frames`: landmark frames, the all-zero sentinel and the two ways the code
  counts absent hands.
- `Corpus`: reference tables, their first `batch_size` rows, resetting and
  summing distances, and the assumed contract of DTW.
- `Fusion`: `_choose_sign` as pure functions, with the lemmas about presence,
  the fast path and the fallback.
- `Recorder`: the recorder's state as a value. `Step` and `Run` are one tick
  and a run of ticks, and the lemmas about them are here. The class
  `SignRecorder` has the source's fields, and its methods are proved equal to
  the value-level functions.
- `Results`: `count_outliers` as a loop, proved against a specification
  function, with lemmas about early stopping.

When recording ends. The call that appends frame `seq_len` still returns
`("", True)`: the append branch and the scoring branch of
`process_mp_results` are exclusive, so that call does not score. Scoring and
the prediction happen on the next call, the `seq_len + 1`-th call after
`record()`. See `Recorder.RecordingCycle` and `Recorder.StepScores`.

## Model

| member | source | states |
|---|---|---|
| Frames.ZeroFrame | sign_recorder.py:94 | the sentinel is 63 values, all exactly zero |
| Frames.AbsentCount | sign_recorder.py:97-104 | `list.count(outlier)` is at most the number of frames; it is 0 exactly when no frame equals the sentinel, and it is the full length exactly when every frame does |
| Frames.AllZeroCount | results.py:26 | the count of frames with every component 0 is bounded by the length, and is 0 exactly when no frame is all-zero |
| Frames.SentinelIsAllZero | results.py:23-26 | a 63-value frame equals `[0]*63` exactly when numpy's comparison with `[0]` is all true |
| Frames.CountsAgree | sign_recorder.py:97 | over 63-value frames, `list.count` of the sentinel equals the numpy all-zero count |
| Frames.AbsentCountAppend | sign_recorder.py:51-54 | appending a frame raises the absent count by one exactly when the frame is the sentinel |
| Corpus.Batch | sign_recorder.py:108 | `iloc[:batch_size]` is `min(batch_size, rows)` rows, each equal to the same row of the table |
| Corpus.TotalDistance | sign_recorder.py:60 | `np.sum` of the distance column; its meaning is stated by `ResetTotalIsZero`, `TotalZeroIffAllZero`, `TotalNonNegative` and `AllZeroTotal` |
| Corpus.ResetDistances | sign_recorder.py:32-33 | zeroing the distance column keeps every name and sign model in order, and makes every distance 0 |
| Corpus.ResetTotalIsZero | sign_recorder.py:32-33 | after `record()`'s reset, the distances sum to 0 |
| Corpus.TotalZeroIffAllZero | sign_recorder.py:60 | over non-negative distances, the `np.sum == 0` test holds exactly when every distance is 0 |
| Corpus.TotalNonNegative | sign_recorder.py:60 | non-negative distances have a non-negative sum |
| Corpus.AllZeroTotal | sign_recorder.py:60 | all-zero distances sum to 0 |
| Corpus.DtwKeepsNames | sign_recorder.py:76-78 | a re-scored table has exactly the names of the table that was scored |
| Corpus.IsDtwResult | sign_recorder.py:76-78 | what the model assumes of one `dtw_distances` call: the same (name, model) rows up to reordering, non-negative distances, ascending by distance |
| Corpus.DtwContract | sign_recorder.py:76-78 | `IsDtwResult` holds for every recording and every table |
| Fusion.PresenceInUnitInterval | sign_recorder.py:93-104 | with buffers of at most `seq_len` frames, both presence scores lie in [0, 1] |
| Fusion.PresenceOfSilentModality | sign_recorder.py:96-104 | a modality with both hands absent in all `n` frames scores 0 |
| Fusion.PresenceOfFullModality | sign_recorder.py:96-104 | a modality with both hands present in every frame scores 1 |
| Fusion.PresenceScores | sign_recorder.py:93-104 | the two scores of `_choose_sign`, with the whole-left-hand-absent branch; neither score exceeds 1 |
| Fusion.ArgMax | sign_recorder.py:110 | `idxmax` gives a candidate whose score is at least every candidate's score |
| Fusion.Without | sign_recorder.py:108 | removing a name keeps exactly the other names |
| Fusion.OtherNameExists | sign_recorder.py:108-109 | with two distinct names in the batch, a second count exists |
| Fusion.FastPathDecides | sign_recorder.py:108-110 | the fast path returns `x` if and only if the sensor score is below 0.2 and `x` occurs more than 1.5 times as often as every other name in the camera batch; so it is the unique most frequent name, whatever the tie-break |
| Fusion.FastPath | sign_recorder.py:108-110 | a name the fast path returns is a name of the camera batch, and it returns one only when the sensor score is below 0.2 |
| Fusion.GroupNames | sign_recorder.py:112 | the group keys are exactly the names of the batch |
| Fusion.GroupNamesDistinct | sign_recorder.py:112 | no group key appears twice |
| Fusion.GroupMeans | sign_recorder.py:112 | each group entry holds its name's mean distance, and every name in the batch has an entry |
| Fusion.GroupMeansDistinct | sign_recorder.py:112 | the group means have one entry per name |
| Fusion.DistanceSum | sign_recorder.py:112 | the sum of a name's distances in the batch; it is non-negative over non-negative distances and 0 for a name the batch lacks |
| Fusion.Mean | sign_recorder.py:112 | a name's `mean()` over the batch; it is non-negative over non-negative distances |
| Fusion.Insert | sign_recorder.py:112 | inserting into an ascending series keeps it ascending and adds exactly that entry |
| Fusion.SortByValue | sign_recorder.py:112 | `sort_values()` is ascending and a permutation of its input |
| Fusion.Lowest | sign_recorder.py:112 | `head(4)` of the sorted means has `min(4, names)` entries, all taken from the means |
| Fusion.LowestSorted | sign_recorder.py:112 | the kept entries are in ascending order |
| Fusion.LowestKeepsSmallest | sign_recorder.py:112 | no entry that was left out is smaller than a kept entry |
| Fusion.Kept | sign_recorder.py:112-113 | `groupby(...).mean().sort_values().head(4)`: at most four means |
| Fusion.MinValue | sign_recorder.py:117-118 | `min()` is a value of the series and at most every value |
| Fusion.MaxValue | sign_recorder.py:117-118 | `max()` is a value of the series and at least every value |
| Fusion.Rescale | sign_recorder.py:117-118 | `(max - v)/(max - min)` lies in [0, 1]; it is 1 exactly at the minimum and 0 exactly at the maximum; it reverses the order |
| Fusion.RescaleSeq | sign_recorder.py:117-118 | with bounds `lo < hi` that enclose every value, `(hi - v)/(hi - lo)` keeps the names, puts every value in [0, 1], maps exactly the values at `lo` to 1 and exactly those at `hi` to 0, and reverses the order |
| Fusion.Normalise | sign_recorder.py:117-118 | normalising keeps the index (the names, in order) |
| Fusion.NormaliseValues | sign_recorder.py:117-118 | after normalising, the lowest mean scores 1, the highest scores 0, every score is in [0, 1], and the order is reversed |
| Fusion.Ranked | sign_recorder.py:112-118 | the kept means rescaled, with the kept names in order |
| Fusion.ScoreOf | sign_recorder.py:129 | the series value for a name, and 0 for a name the series lacks (`fill_value=0`) |
| Fusion.Fused | sign_recorder.py:121-129 | a name's weighted sum over both series; 0 for a name neither series holds |
| Fusion.FusedArgMax | sign_recorder.py:121-129 | the fused `idxmax` is a name of one of the two series, and its weighted sum is at least every such name's |
| Fusion.FusedArgMaxUnique | sign_recorder.py:129 | a name of either series whose weighted sum beats every other name's is the one `idxmax` returns |
| Fusion.KeptNonEmpty | sign_recorder.py:112 | a non-empty batch keeps at least one mean |
| Fusion.Fallback | sign_recorder.py:112-129 | the fallback returns a name from one of the two batches; it is one of the kept names of either modality, and no kept name has a larger weighted sum of rescaled scores |
| Fusion.FusedAgreement | sign_recorder.py:121-129 | with positive weights, a name that scores 1 in both series while every other name scores below 1 in both wins the fused maximum |
| Fusion.FusedSilentFirst | sign_recorder.py:121-129 | with the camera weight 0 and a positive sensor weight, the fused maximum is a sensor name that scores 1 |
| Fusion.FusedSilentSecond | sign_recorder.py:121-129 | with the sensor weight 0 and a positive camera weight, the fused maximum is a camera name that scores 1 |
| Fusion.LowestHead | sign_recorder.py:112 | the first kept entry is no larger than any entry of the means |
| Fusion.KeptHeadIsLowest | sign_recorder.py:112 | the first kept mean is no larger than the mean of any name in the batch |
| Fusion.KeptAreMeans | sign_recorder.py:112 | every kept entry is a batch name paired with its mean distance |
| Fusion.KeptHead | sign_recorder.py:112-117 | the first kept entry is the minimum of the kept means, and is a name with the lowest mean of the batch |
| Fusion.RankedOne | sign_recorder.py:112-118 | a kept name's rescaled score is at most 1, and it is exactly 1 if and only if that name has the lowest mean of the batch |
| Fusion.RankedStrictLowest | sign_recorder.py:112-118 | the name with strictly the lowest mean is kept, scores 1, and every other name scores below 1 |
| Fusion.FallbackAgreement | sign_recorder.py:112-129 | with both presence scores positive, a name that has strictly the lowest mean in both batches is the fallback's result |
| Fusion.FallbackFollowsCameraWhenSensorSilent | sign_recorder.py:112-129 | with a positive camera score and a sensor score of 0, the fallback returns a name with the lowest camera mean |
| Fusion.FallbackFollowsSensorWhenCameraSilent | sign_recorder.py:112-129 | with a camera score of 0, a positive sensor score and a non-empty sensor batch, the fallback returns a name with the lowest sensor mean |
| Fusion.ChooseSign | sign_recorder.py:92-130 | `_choose_sign` returns a name from the first `batch_size` rows of one of the two corpora: the fast path's name when it decides, and otherwise the fallback's result, so the fallback's maximality applies |
| Fusion.CandidatesAreBatchNames | sign_recorder.py:112-129 | every name of the two rescaled series is a name of its batch |
| Fusion.RankedNames | sign_recorder.py:117-118 | rescaling keeps the kept names in order |
| Fusion.KeptNames | sign_recorder.py:112 | every kept name is a name of the batch |
| Fusion.ChooseSignFastPath | sign_recorder.py:108-110 | a sensor score below 0.2, with a camera name more than 1.5 times as frequent as every other, make the input decidable and decide on that name, before any mean or rescaling is taken |
| Fusion.ChooseSignAgreement | sign_recorder.py:112-129 | when the fast path does not decide and both scores are positive, a name with strictly the lowest mean in both batches is the decision |
| Fusion.ChooseSignWithSilentSensor | sign_recorder.py:96-129 | when the sensor saw neither hand in any frame, the camera score is positive and the fast path does not decide, the decision is a camera name with the lowest mean distance |
| Fusion.ChooseSignWithSilentCamera | sign_recorder.py:96-129 | when the camera saw neither hand in any frame, the sensor score is positive, the fast path does not decide and the sensor batch is not empty, the decision is a sensor name with the lowest mean distance |
| Recorder.Initial | sign_recorder.py:11-25 | a new recorder is idle, holds no prediction and has empty buffers, and it satisfies the recorder invariant |
| Recorder.Invariant | sign_recorder.py:28-89 | the recorder invariant: one length for the four buffers, at most `seq_len`; a zero camera sum while recording with room; a prediction only while idle, with a non-zero sum; empty buffers while idle |
| Recorder.Armed | sign_recorder.py:28-35 | `record()` zeroes both corpora's distances (names and models kept, sums 0), clears the prediction, starts recording, keeps the four buffers, and preserves the invariant |
| Recorder.Rescored | sign_recorder.py:67-78 | under the DTW contract, both re-scored corpora keep their rows, with non-negative distances in ascending order |
| Recorder.Ingest | sign_recorder.py:48-58 | the first half of a call keeps `seq_len`, the prediction and the recording flag, and changes nothing while idle |
| Recorder.Choice | sign_recorder.py:81-82 | the label chosen on a state is a name from one of the two batches |
| Recorder.Predicted | sign_recorder.py:81-89 | the stored label is a name from one of the two batches; the buffers are emptied, recording stops, and `seq_len` and both corpora are unchanged |
| Recorder.Step | sign_recorder.py:38-64 | one call keeps `seq_len`, and a non-blank label is returned only when the camera distances do not sum to 0 |
| Recorder.Run | sign_recorder.py:38-64 | a run of calls returns one result per call |
| Recorder.Column | sign_recorder.py:51-54 | the frames that one buffer gains over a run of ticks, one per tick and in order |
| Recorder.StepPreservesInvariant | sign_recorder.py:48-89 | every call keeps the four buffers at one length and no longer than `seq_len`; while recording with room, the camera distances sum to 0; a prediction is held only while idle, with a non-zero sum; the buffers are empty while idle |
| Recorder.StepAppends | sign_recorder.py:48-54 | while recording with room, a call appends exactly one frame to each buffer, changes nothing else and returns `("", True)` |
| Recorder.StepWhenIdle | sign_recorder.py:48-64 | when not recording, a call appends nothing, leaves both corpora unchanged and keeps recording off; the buffers are unchanged or, if this call makes the prediction, emptied; under the invariant they are empty afterwards |
| Recorder.StepBlankWhileUnscored | sign_recorder.py:48-61 | when the camera distances sum to 0 after the first half of the call, the new state is exactly what that first half left, the call returns `("", is_recording)`, and no prediction is made |
| Recorder.StepSticky | sign_recorder.py:62-64 | a held prediction is returned with `is_recording == False`, and the call changes nothing |
| Recorder.StepScores | sign_recorder.py:48-89 | the call that finds `seq_len` frames buffered re-scores both corpora instead of appending. If all camera distances come out 0, it returns `("", True)`. Otherwise it returns the fused choice on the full buffers with recording off and the buffers emptied, or no label where `_choose_sign` fails |
| Recorder.RunSticky | sign_recorder.py:62-64 | a held prediction survives any number of calls, and each of them returns it |
| Recorder.RunRecording | sign_recorder.py:48-61 | while recording with room, a run of calls appends exactly its frames, in order, and each call returns `("", True)` |
| Recorder.RecordingCycle | sign_recorder.py:28-61 | after `record()` on empty buffers, `seq_len` calls fill the buffers with exactly their frames while each returns `("", True)`; the corpora stay zeroed, so scoring happens on the next call |
| Recorder.SignRecorder.constructor | sign_recorder.py:11-25 | the fields hold the initial state |
| Recorder.SignRecorder.Record | sign_recorder.py:28-35 | the new fields are `Armed` of the old ones, and the invariant is kept |
| Recorder.SignRecorder.ComputeDistances | sign_recorder.py:67-78 | the new fields are `Rescored` of the old ones |
| Recorder.SignRecorder.GetSignPredicted | sign_recorder.py:81-89 | where `_choose_sign` decides, the label is stored, the buffers are emptied and recording stops; where `_choose_sign` raises, nothing changes (the NaN case is under Left out) |
| Recorder.SignRecorder.ProcessMpResults | sign_recorder.py:38-64 | the new fields and the returned pair are those of `Step`, and the invariant is kept |
| Results.BothMissing | results.py:28-30 | the joint count is at most the number of camera frames |
| Results.ScanFrom | results.py:25-32 | the scan ends just past the first all-zero camera frame with no sensor frame, or at the end when there is none |
| Results.ScanEnd | results.py:25-32 | the number of camera frames that are looked at is at most their count |
| Results.CountOutliers | results.py:20-33 | both results are the counts over exactly the frames scanned; the joint count is at most the camera count, which is at most `len(frames_MP)`; with a sensor sequence at least as long, the camera count is the total all-zero count |
| Results.MissingBothAtMostMissingCamera | results.py:28-30 | the joint count never exceeds the camera count |
| Results.NoEarlyStop | results.py:20-33 | with a sensor sequence at least as long as the camera sequence, the scan reaches the end |
| Results.EarlyStop | results.py:26-32 | the first all-zero camera frame past the end of the sensor sequence is the last one looked at; it is counted in the camera total and not in the joint total |
| Results.ScanIgnoresSensorElsewhere | results.py:26-30 | sensor sequences that agree wherever the camera frame is all-zero give the same scan |
| Results.BothMissingIgnoresSensorElsewhere | results.py:28-30 | such sensor sequences give the same joint count over any prefix |
| Results.CountsIgnoreSensorElsewhere | results.py:26-30 | sensor frames at indices whose camera frame is not all-zero affect neither result |

## Left out

- DTW (`dtw_distances`) and `SignModel`: `utils/dtw.py` and `models/sign_model.py` are not part of this model. DTW is a function parameter. Lemmas and callers that need more assume only `Corpus.DtwContract`: the rows are kept up to reordering, distances are non-negative, and the rows are sorted ascending by distance. No property of DTW itself is claimed.
- `extract_landmarks` and MediaPipe: `Recorder.Input` holds the camera's two hand frames after extraction. A missing hand is the 63-zero frame.
- `print` calls (sign_recorder.py:57-58, 124-126) are omitted.
- main.py, recorder.py, leap_listener.py and the dataset loader: these are capture loops, a foreign-library wrapper, and file and pickle I/O. The corpora are constructor arguments. Their starting distances are not assumed to be 0. The invariant needs no assumption about them.
- results.py `read_datasets` and the `__main__` block: file walking, plotting and percentages.
- Floating point: distances, presence scores and the rescaling are exact `real` arithmetic. NaN is not modelled.
- Fusion.ChooseSign: requires `Fusion.Decidable`, where the source raises an exception or produces NaN. The cases are: `seq_len == 0` (division by zero); fewer than two distinct names in the camera batch (`highest_two[1]`); and, when the fast path does not decide, kept means that are all equal (max == min). An empty camera batch is already excluded by the two-names condition. This also excludes a case where the source does return a label: when the fallback runs and exactly one modality's kept means are all equal, that series is NaN, and `add(..., fill_value=0)` treats a NaN on one side as 0, so `idxmax` still returns the other modality's best weighted name. The model makes no statement about that label. Recorder.Step and Recorder.SignRecorder.ProcessMpResults return `Undefined` there instead of a label. The fields are then left as the failing call found them after re-scoring.
- Recorder.Step: where the decision is not decidable, the model leaves the fields as re-scoring left them (still recording, full buffers, no prediction). That matches the source only for the two cases that raise: `seq_len == 0` and `highest_two[1]`. In the NaN case (the fallback runs and one or both modalities' kept means are all equal) `_choose_sign` returns without raising: a label when only one modality is NaN, NaN when both are. `_get_sign_predicted` (sign_recorder.py:81-89) then empties the four buffers, stops recording and stores that value as the held prediction, which later calls return. The model does none of this: it returns `Undefined`, stays recording with full buffers, and re-scores on every later call. Recorder.SignRecorder.ProcessMpResults inherits this gap.
- Recorder.SignRecorder.GetSignPredicted: when the choice is not decidable it returns `ok == false` and changes nothing. That matches the source only where `_choose_sign` raises. In the NaN case, `_get_sign_predicted` (sign_recorder.py:81-89) stores the label or NaN that `_choose_sign` returns, empties the four buffers and sets `is_recording = False`; the model does not.
- Pandas ordering: the order of `groupby` keys, the order of `sort_values` on equal means, `value_counts` order on equal counts, and `idxmax` on equal maxima are not modelled. `Fusion.ArgMax` returns some maximiser. Every result that depends on a tie-break is stated for all maximisers, or under a strict-minimum or strict-frequency hypothesis.
- `.multiply(w)` followed by `.add(..., fill_value=0)` is not a separate step: `Fusion.Fused` writes each name's sum directly. It is the series value times the weight, with an absent name contributing 0.
- Aliasing: `record()` overwrites the distance column of the DataFrames that the caller passed in, in place. The model assumes that `dtw_distances` returns a new table rather than the one it was given, so after `compute_distances` the fields no longer share the caller's DataFrames. `utils/dtw.py` is not part of this model, so that assumption is not checked. The model holds both corpora as values, so the caller's copy is not modelled.
- Default arguments: the constructor's `seqLen` parameter defaults to `Recorder.DefaultSeqLen` (40), as `__init__` does. `ProcessMpResults` uses `Fusion.DefaultBatchSize` (30), as `_get_sign_predicted()` does by default.
