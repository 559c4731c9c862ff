# Rolling time-window aggregator: a verified model

This project models the two classes at the heart of `prometheus-extended-gauge`.
Together they compute the moving average, minimum, maximum, sample count and last value
of a gauge over a sliding time window.

- `Bucket` accumulates the statistics of one interval `[startTimestamp, startTimestamp +
  bucketDuration]` (both ends included). It keeps:
  - a running time-weighted sum,
  - the last value and timestamp,
  - the extrema,
  - a sample count.

  It refuses a sample outside the interval, or one earlier than the last sample.
- `BucketedCircularBuffer` is a ring of `numBuckets` optional buckets, one per step of
  `stepSizeMillis` milliseconds.
  - Moving to a later timestamp within the current step changes nothing. Moving to a later
    step does three things. It clears the slots of the steps it skips, or fills them with
    single-value buckets carrying the last value. A move of a whole window or more does
    this to every slot. Then it installs a fresh current bucket, seeded with that value.
  - Its getters fold over the slots and skip empty slots and undefined statistics.

The project has five modules, one file each:

- `Stats` (`stats.dfy`) holds the shared value types:
  - `Option` stands for JavaScript's `undefined`;
  - `Outcome` is the two errors of `addValue`;
  - `Pos` is a positive duration;
  - there are also a maximum, a minimum and a sum over sequences of reals.
- `Buckets` (`bucket.dfy`) is the bucket.
  - The bucket's meaning is its history of accepted samples, a `BucketView`.
  - The integral is specified independently, millisecond by millisecond: `Weighted` sums the
    value in force during each `[t, t+1)`.
  - The class `Bucket` keeps the source's six fields, plus a ghost history.
  - Its invariant `Valid` says that the fields summarise the history:
    - `acum` is the integral from the start to the last timestamp;
    - min, max, last and count are those of the history.
- `Window` (`window.dfy`) is the ring on values:
  - the step and slot of a timestamp, and the source's bit-level fast paths;
  - what a move does to the slots (`Move`, `Advance`, `Kept`, `ClearGap`);
  - the insertion (`Insert`) and the window invariant (`WindowInv`);
  - the folds of the getters (`ReduceUndefinedAware`, `MeanFold`).
- `CircularBuffer` (`circular_buffer.dfy`) holds the class `BucketedCircularBuffer`.
  - The class works on an array of `Bucket` objects, in place.
  - Each method is proved against the `Window` functions.
  - The class invariant ties the array to its ghost `Ring` of bucket views. It also states
    the window invariant.
- `Scenarios` (`scenarios.dfy`) holds the worked examples of the two test suites, proved on
  the model. `Run` folds the later-sample branch of `addValue` over the kept fields alone,
  and `RunSummarises` proves that the fold summarises the growing history. Each test then
  reduces to evaluating that fold.

Timestamps are integers (milliseconds) and values are exact reals.

## Model

| member | source | states |
|---|---|---|
| Buckets.Admit | src/Bucket.ts:24-29 | A sample is accepted exactly when its timestamp lies in [start, start + duration] and is not before the last timestamp. Back-in-time is reported only for an in-range timestamp: the range is checked first. |
| Buckets.Record | src/Bucket.ts:30-51 | Accepting a sample keeps the interval, adds one sample and leaves the earlier ones unchanged. The new sample gives the last value and the last timestamp. |
| Buckets.SeedStats | src/Bucket.ts:11-16 | Without a start value, a bucket has no samples and no average, min, max or last. With start value v, it has one sample at its start, and average = min = max = last = v. |
| Buckets.Bucket.constructor | src/Bucket.ts:11-16 | The new bucket is valid, holds the seeded history, and `lastTimestamp` is the start. Its count is 0 or 1, and all four getters return the start value (or undefined). |
| Buckets.Bucket.AddValue | src/Bucket.ts:22-52 | The outcome is out-of-range exactly when the timestamp is before the start or after start + duration; otherwise back-in-time exactly when it is before the last timestamp. A refused call changes nothing. An accepted call appends the sample to the history, keeps the invariant, adds 1 to the count, and sets the last value and timestamp. |
| Buckets.Bucket.RecordFirst | src/Bucket.ts:30-36 | The first-sample branch appends the sample and keeps the invariant: the first value is integrated from the start of the interval. |
| Buckets.Bucket.RecordLater | src/Bucket.ts:37-50 | The later-sample branch appends the sample and keeps the invariant: the accumulator, the extrema and the last value/timestamp still summarise the history. |
| Buckets.Bucket.GetAverage | src/Bucket.ts:53-61 | The result is the reference time-weighted average of the history: undefined when empty, the last value held to the end of the interval. The count-0, count-1 and general cases all agree with it. |
| Buckets.Bucket.GetMinValue | src/Bucket.ts:62-64 | The minimum of the counted values of the history. |
| Buckets.Bucket.GetMaxValue | src/Bucket.ts:65-67 | The maximum of the counted values of the history. |
| Buckets.Bucket.GetNumValues | src/Bucket.ts:68-70 | The number of samples accepted. |
| Buckets.Bucket.GetLastValue | src/Bucket.ts:71-73 | The value of the last sample accepted, or undefined. |
| Buckets.AppendWeightedFirst | src/Bucket.ts:36 | The first sample's contribution to the reference integral up to its timestamp is value × (timestamp − start). |
| Buckets.AppendWeightedLater | src/Bucket.ts:39-41 | A later sample adds the previous value × the elapsed time to the reference integral. A sample at the last timestamp adds nothing. |
| Buckets.AccumulateLater | src/Bucket.ts:39-41 | The guarded update `acum += last × Δt`, applied to the kept fields (`acum`, `lastValue`, `lastTimestamp`), yields exactly the reference integral of the extended history up to the new timestamp. |
| Buckets.RecordExtrema | src/Bucket.ts:42-47 | After a sample, max and min are those of the previous counted values joined with the new one. The exception is a second sample exactly at the start, which replaces both. |
| Buckets.LaterExtrema | src/Bucket.ts:42-47 | The source's two guarded assignments to max and min compute exactly the extrema of the new history. |
| Buckets.LaterSummary | src/Bucket.ts:37-51 | The later-sample branch maps a summary of the history to a summary of the history plus the sample. |
| Buckets.ExtremaBracketLast | src/Bucket.ts:42-48 | Whenever the bucket holds a sample, min ≤ last ≤ max. |
| Buckets.LastTsInRange | src/Bucket.ts:11-12 | In every well-formed history the last timestamp lies in [start, start + duration]. |
| Buckets.RecordWellFormed | src/Bucket.ts:24-29 | A sample that passes both guards keeps the history inside the interval and in time order, and becomes the last timestamp. |
| Buckets.AverageLaw | src/Bucket.ts:60 | For a non-empty history, the reference average equals (acum + (start + duration − lastTs) × last) / duration. |
| Buckets.SingleSampleAverage | src/Bucket.ts:57-59 | The count == 1 shortcut agrees with the integral: a single sample averages to its value. |
| Buckets.WeightedRectangles | src/Bucket.ts:36-41 | The millisecond-wise integral up to the last sample equals the sum of rectangles that the source accumulates. |
| Window.Step | src/BucketedCircularBuffer.ts:27 | The step of a timestamp is the unique step whose interval [step × size, step × size + size) contains it. |
| Window.BucketIndex | src/BucketedCircularBuffer.ts:34 | The slot is below numBuckets and congruent to the step. |
| Window.StepMonotone | src/BucketedCircularBuffer.ts:40-42 | A later timestamp never lies in an earlier step, so `stepsMoved` is never negative. |
| Window.ShiftStep | src/BucketedCircularBuffer.ts:25 | `timestamp >> 10` always lies in [−2^21, 2^21), whatever the timestamp: it cannot reach the step of any timestamp of 2^31 ms or more. |
| Window.StepAsWritten | src/BucketedCircularBuffer.ts:22-28 | The step as written agrees with the division step for every step size but 1024, and for 1024 below 2^31 ms. |
| Window.MaskIndex | src/BucketedCircularBuffer.ts:32 | `step & 63` is always a slot of a 64-slot ring: it lies in [0, 64). |
| Window.ToInt32 | src/BucketedCircularBuffer.ts:25 | The 32-bit conversion lies in [−2^31, 2^31) and is congruent to its argument modulo 2^32. |
| Window.CalcBucketIndex | src/BucketedCircularBuffer.ts:29-35 | The mask path (for 64 slots) and the remainder path both give the slot `BucketIndex`. |
| Window.MaskIndexAgrees | src/BucketedCircularBuffer.ts:30-33 | `step & 63` equals `step mod 64` for every integer step. |
| Window.ShiftStepAgrees | src/BucketedCircularBuffer.ts:23-26 | `timestamp >> 10` equals the division step for timestamps below 2^31. |
| Window.ShiftStepWraps | src/BucketedCircularBuffer.ts:23-26 | For a 2023 timestamp the shift gives step −788134, not 1660156250. The bucket installed for that step refuses the timestamp as out of range. |
| Window.InitialSlots | src/BucketedCircularBuffer.ts:19-21 | Exactly one slot holds a bucket: that of the start timestamp's step. The bucket is empty, has the step size as its duration, and its interval contains the start timestamp. |
| Window.Carry | src/BucketedCircularBuffer.ts:48 | A value is carried exactly when the current slot holds a bucket with at least one sample. It is then the value of that bucket's latest sample. |
| Window.Filler | src/BucketedCircularBuffer.ts:72 | A skipped slot is empty exactly when there is no value to carry (lines 62 and 72). Otherwise it holds one sample, and its average, min, max and last value are the carried value. |
| Window.ClearGap | src/BucketedCircularBuffer.ts:69-74 | For a move of at most n steps, the slot of every skipped step is cleared or filled. The slot of every step from next − n to the current step is unchanged. |
| Window.Kept | src/BucketedCircularBuffer.ts:58-74 | A move of one step keeps every slot. A move of fewer than n steps clears or fills the skipped steps' slots, and every step from next − n to the current one keeps its slot. A move of more than one step and at least n steps clears or fills every slot. |
| Window.Advance | src/BucketedCircularBuffer.ts:47-79 | After a move to a later step, the new step's slot holds a bucket for exactly that step's interval. The bucket holds at most one sample, and its last value is the carried value. |
| Window.Move | src/BucketedCircularBuffer.ts:36-80 | A move within the current step leaves every slot unchanged (lines 43-46). A move to a later step puts in the new step's slot the bucket for its interval, seeded with the carried value. |
| Window.Insert | src/BucketedCircularBuffer.ts:84 | The sample is appended to the current bucket's history. The bucket keeps its interval, and no other slot changes. |
| Window.SkippedStep | src/BucketedCircularBuffer.ts:71-73 | Each turn of the gap loop marks exactly one more slot as skipped: that of step i mod n. |
| Window.AdvanceWithinWindow | src/BucketedCircularBuffer.ts:48-78 | A move of 1 ≤ stepsMoved < n changes three kinds of slot. The slot of each skipped step is cleared, or filled with the carried value. Every step still in the window keeps its slot. The new step's slot holds a bucket for its interval, seeded with the carried last value. For stepsMoved == 1 nothing is skipped. |
| Window.AdvanceFullWrap | src/BucketedCircularBuffer.ts:58-78 | A move of stepsMoved ≥ n clears every slot, or fills it with the carried value. Then the new step's slot gets the seeded bucket. |
| Window.InitialInv | src/BucketedCircularBuffer.ts:19-21 | The constructor's slots satisfy the window invariant: the current slot holds a well-formed bucket for the start timestamp's step. |
| Window.MoveKeepsInv | src/BucketedCircularBuffer.ts:36-80 | A move to any timestamp no earlier than the last one keeps the window invariant for the new step. |
| Window.CurrentAdmits | src/BucketedCircularBuffer.ts:84 | Under the window invariant, the current bucket accepts a sample at the current timestamp, so the inner `addValue` never throws. |
| Window.InsertKeepsInv | src/BucketedCircularBuffer.ts:84 | Adding the sample at the current timestamp keeps the window invariant. |
| Window.ReduceUndefinedAware | src/BucketedCircularBuffer.ts:112-127 | The fold is undefined exactly when every value is undefined. |
| Window.ReduceMax | src/BucketedCircularBuffer.ts:102-104 | Folding `Math.max` gives the maximum of the defined values, or undefined. |
| Window.ReduceMin | src/BucketedCircularBuffer.ts:99-101 | Folding `Math.min` gives the minimum of the defined values, or undefined. |
| Window.ReduceSum | src/BucketedCircularBuffer.ts:105-107 | Folding addition gives the sum of the defined values, or undefined. |
| Window.SumAndCount | src/BucketedCircularBuffer.ts:87-96 | `getAverage`'s accumulator holds the sum and the number of the defined averages. |
| Window.MeanFold | src/BucketedCircularBuffer.ts:97 | The mean of the defined averages, or undefined when there are none. |
| Window.LoneEmptyBucket | src/BucketedCircularBuffer.ts:86-107 | With only one bucket, and that one empty, average, min and max are undefined and the count is 0. |
| Window.InitialAggregates | src/BucketedCircularBuffer.ts:19-21 | A fresh buffer reports no average, min or max, and a count of 0. |
| Window.FullWrapAggregates | src/BucketedCircularBuffer.ts:58-68 | After a move of a whole window, average = min = max = the carried value and the count is n. With nothing to carry, nothing is reported and the count is 0. |
| Window.Uniform | src/BucketedCircularBuffer.ts:60-64 | Slots that all hold a bucket seeded with v report average, min and max v, and a count equal to the number of slots. |
| CircularBuffer.SlotValue | src/BucketedCircularBuffer.ts:113-120 | An empty slot contributes nothing. Otherwise the extractor is read through the bucket's getter. |
| CircularBuffer.BucketedCircularBuffer.constructor | src/BucketedCircularBuffer.ts:19-21 | Only the start step's slot holds a bucket, and that bucket is empty. The count is 0; average, min, max and last are undefined. |
| CircularBuffer.BucketedCircularBuffer.MoveToTimestamp | src/BucketedCircularBuffer.ts:36-80 | An earlier timestamp is refused and nothing changes. Otherwise the current timestamp becomes the given one and the current step becomes its step, which never decreases. The slots become `Move` of the old slots. |
| CircularBuffer.BucketedCircularBuffer.AdvanceTo | src/BucketedCircularBuffer.ts:47-79 | Moving to a later step leaves the slots `Advance` of the old ones, and the new current bucket is not aliased by any other slot. |
| CircularBuffer.BucketedCircularBuffer.ClearSkipped | src/BucketedCircularBuffer.ts:58-74 | The skipped steps' slots become `Kept` of the old slots: fillers everywhere, or an empty array, for a full wrap; the gap otherwise. |
| CircularBuffer.BucketedCircularBuffer.FillAll | src/BucketedCircularBuffer.ts:60-64 | Every slot holds a fresh bucket seeded with the last value. |
| CircularBuffer.BucketedCircularBuffer.Wipe | src/BucketedCircularBuffer.ts:65-68 | Every slot is empty. |
| CircularBuffer.BucketedCircularBuffer.FillGap | src/BucketedCircularBuffer.ts:69-74 | The slots of the steps strictly between the current and the new step are cleared, or filled with the last value. All other slots are unchanged. |
| CircularBuffer.BucketedCircularBuffer.InstallCurrent | src/BucketedCircularBuffer.ts:75-78 | The new step's slot holds a fresh bucket for its interval, seeded with the last value, and becomes the current one. |
| CircularBuffer.BucketedCircularBuffer.AddValue | src/BucketedCircularBuffer.ts:81-85 | An earlier timestamp is refused and the slots are unchanged. Otherwise the slots are the move followed by the insertion into the current bucket, and the last value is the one added. |
| CircularBuffer.BucketedCircularBuffer.AddToCurrent | src/BucketedCircularBuffer.ts:84 | The current bucket accepts the sample, and no other slot changes. |
| CircularBuffer.BucketedCircularBuffer.Extract | src/BucketedCircularBuffer.ts:113-120 | The statistic read from each slot is that slot's statistic. |
| CircularBuffer.BucketedCircularBuffer.GetAverage | src/BucketedCircularBuffer.ts:86-98 | The mean of the slots' defined averages, or undefined when there are none. |
| CircularBuffer.BucketedCircularBuffer.GetMinValue | src/BucketedCircularBuffer.ts:99-101 | The least of the slots' defined minima, or undefined. |
| CircularBuffer.BucketedCircularBuffer.GetMaxValue | src/BucketedCircularBuffer.ts:102-104 | The greatest of the slots' defined maxima, or undefined. |
| CircularBuffer.BucketedCircularBuffer.GetNumValues | src/BucketedCircularBuffer.ts:105-107 | The sum of the slots' counts. It is always defined, because the current slot always holds a bucket. |
| CircularBuffer.BucketedCircularBuffer.GetLastValue | src/BucketedCircularBuffer.ts:108-110 | The current bucket's last value. |
| Scenarios.RunSummarises | src/Bucket.ts:37-51 | Folding the later-sample branch over in-order samples accepts every sample, and the kept fields summarise the growing history. |
| Scenarios.Later | src/Bucket.ts:37-50 | On the kept fields, a later sample becomes the last value and timestamp, and the count grows by one. The previous value is integrated over the elapsed time, which is zero for an equal timestamp. The extrema take in the new value, except that a second sample at the start replaces both. |
| Scenarios.SummaryStats | src/Bucket.ts:53-73 | Fields that summarise a history report its reference average, extrema, last value and count. |
| Scenarios.SeededRun | src/Bucket.ts:11-52 | A seeded bucket fed in-order samples accepts them all, and reports the statistics of the folded fields. |
| Scenarios.EmptyRun | src/Bucket.ts:22-52 | An empty bucket fed in-order samples accepts them all, and reports the statistics of the folded fields. |
| Scenarios.TimeContinuum | test/BucketTest.ts:50-78 | Timestamps 1 and 2001 are out of range for a bucket [1000, 2000]. Timestamp 1003 after 1005 goes back in time. |
| Scenarios.SameTimestampOverride | test/BucketTest.ts:79-87 | Seeded with 20, then 10 at 1500: average 15, last 10. Then 30 at 1500: average 25, last 30. |
| Scenarios.BucketSeriesOne | test/BucketTest.ts:90-99 | "Series 1" on a seeded bucket: the test's weighted average, max 80 (test line 137), min 18 (line 166). |
| Scenarios.BucketSeriesTwo | test/BucketTest.ts:100-111 | "Series 2": the same average, max 100 (line 149), min 0 (line 178). |
| Scenarios.BucketSeriesThree | test/BucketTest.ts:112-121 | "Series 3" on an empty bucket: the first value counts from the start of the interval. |
| Scenarios.OverrideAtStart | test/BucketTest.ts:124-128 | A second sample at the start replaces the seed in the extrema: max 10, and min 30 (lines 153-157). |
| Scenarios.RingSeriesOne | test/BucketedCircularBuffer.ts:44-54 | Five 100 ms slots: the average is the test's expected value, max 80 (test line 78), min 18 (line 102). |
| Scenarios.RingSeriesTwo | test/BucketedCircularBuffer.ts:55-67 | The same average, max 100 (line 90), min 0 (line 114). |
| Scenarios.RingSeriesThree | test/BucketedCircularBuffer.ts:116-126 | The move to step 15 reuses step 10's slot, so its minimum 1 is no longer counted and the minimum is 20. |
| Scenarios.RingUnfold | src/BucketedCircularBuffer.ts:81-85 | One `addValue` of a run keeps the window invariant, and the run continues from the slots it leaves. |

## Left out

- `src/ExtendedGauge.ts` and `src/StatsHolder.ts` are not part of this model. The first is
  a facade over the `prom-client` gauge; the second is an interface without behaviour.
- Wall-clock defaults (`new Date().valueOf()`) are not modelled: every timestamp is a
  parameter.
- Default constructor arguments (1024 ms, 64 buckets) are not modelled: the buffer's
  constructor takes the step size and the number of buckets explicitly.
- Floating point is not modelled. Values are exact reals, so rounding, NaN and the 1e-6
  tolerance of the buffer tests do not arise.
- Durations, step sizes and bucket counts are positive (`Pos`). JavaScript would produce
  NaN or Infinity for zero.
- Timestamps of the buffer are non-negative. The source's remainder truncates toward zero,
  and its initial step −1 would clash with negative steps.
- Error messages are not modelled: the two errors are the `Outcome` values `OutOfRange` and
  `BackInTime`.
- The buffer's `currentBucket` field is not kept. The current bucket is the slot at
  `currentBucketIndex`, which the invariant keeps equal to the source's alias.
- `this.buckets = []` (src/BucketedCircularBuffer.ts:67) is modelled as a fresh array of
  `numBuckets` empty slots. The JavaScript array is shorter, but the folds skip missing and
  empty entries alike, so every getter agrees.
- The shift path for 1024 ms steps is modelled beside the class (`Window.StepAsWritten`).
  The class computes steps by division: the shift's discrepancy is reported under Findings
  rather than built in. The mask path for 64 slots is built in: the class computes its
  slot with `Window.CalcBucketIndex`, which agrees with the remainder for every step.
- The sleep-based real-time test (test/BucketedCircularBuffer.ts:128-141) is not modelled:
  it depends on the wall clock.

## Findings

| source | as written | input that shows it | evidently intended | confidence | as-written member | corrected member |
|---|---|---|---|---|---|---|
| src/BucketedCircularBuffer.ts:23-26 | With a step of 1024 ms, the step is `timestamp >> 10`, which first converts the timestamp to a signed 32-bit integer. | Timestamp 1700000000000 (a 2023 epoch time) with steps of 1024 ms. The shift gives step −788134 instead of 1660156250. The current bucket's interval then misses the timestamp, and the inner `addValue` throws out of range. | floor(timestamp / 1024), which the division branch at src/BucketedCircularBuffer.ts:27 computes for every other step size. The two agree only below 2^31 ms (`Window.ShiftStepAgrees`). | not executed | Window.ShiftStepWraps | Window.Step |
