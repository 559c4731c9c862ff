/** One accumulation cell of the rolling window: the statistics of the interval
    [startTimestamp, startTimestamp + bucketDuration]. Timestamps are integer milliseconds.

    A bucket's meaning is its history of accepted samples (a `BucketView`). The time-weighted
    sum the class keeps incrementally is specified against an independent reference: the
    sum, over every millisecond t, of the value in force during [t, t+1). */
module Buckets {
  import opened Stats

  datatype Sample = Sample(value: real, ts: int)

  /** The abstract state of a bucket: its interval and every sample it accepted, in order. */
  datatype BucketView = BucketView(start: int, duration: Pos, samples: seq<Sample>)

  /** Samples lie inside the interval (both ends included) in non-decreasing time order. */
  ghost predicate WellFormed(b: BucketView)
    decreases |b.samples|
  {
    var s := b.samples;
    |s| == 0 ||
    (WellFormed(b.(samples := s[..|s| - 1])) &&
     b.start <= s[|s| - 1].ts <= b.start + b.duration &&
     (|s| == 1 || s[|s| - 2].ts <= s[|s| - 1].ts))
  }

  /** The last timestamp seen; the start of the interval before the first sample. */
  function LastTs(b: BucketView): int {
    if |b.samples| == 0 then b.start else b.samples[|b.samples| - 1].ts
  }

  /** The last timestamp never leaves the interval. */
  lemma LastTsInRange(b: BucketView)
    requires WellFormed(b)
    ensures b.start <= LastTs(b) <= b.start + b.duration
  {
  }

  /** The bucket built with an optional start value, which is recorded at the start. */
  function Seed(start: int, duration: Pos, startValue: Option<real>): BucketView {
    BucketView(start, duration, if startValue.None? then [] else [Sample(startValue.value, start)])
  }

  /** The admission check of addValue: the range first, then the ordering. */
  function Admit(b: BucketView, ts: int): (r: Outcome)
    ensures r == Ok <==> b.start <= ts <= b.start + b.duration && LastTs(b) <= ts
    ensures r == BackInTime ==> b.start <= ts <= b.start + b.duration
  {
    if ts < b.start || ts > b.start + b.duration then OutOfRange
    else if ts < LastTs(b) then BackInTime
    else Ok
  }

  /** The bucket after accepting the sample (v, ts). */
  function Record(b: BucketView, v: real, ts: int): (r: BucketView)
    ensures r.start == b.start && r.duration == b.duration
    ensures |r.samples| == |b.samples| + 1 && r.samples[..|b.samples|] == b.samples
    ensures LastOf(r) == Some(v) && LastTs(r) == ts
  {
    b.(samples := b.samples + [Sample(v, ts)])
  }

  // ---------------------------------------------------------------------------------
  // The time-weighted integral.

  /** The value in force during [t, t+1): that of the latest sample taken at or before t,
      the first sample's before any sample was taken (it is taken to hold from the start). */
  ghost function HeldAt(s: seq<Sample>, t: int): real
    decreases |s|
  {
    if |s| == 0 then 0.0
    else if |s| == 1 then s[0].value
    else if s[|s| - 1].ts <= t then s[|s| - 1].value
    else HeldAt(s[..|s| - 1], t)
  }

  /** The integral of the step function over [lo, hi): one term per millisecond. */
  ghost function Weighted(s: seq<Sample>, lo: int, hi: int): real
    decreases hi - lo
  {
    if hi <= lo then 0.0 else Weighted(s, lo, hi - 1) + HeldAt(s, hi - 1)
  }

  /** The time-weighted mean over the whole interval, the last value holding to its end. */
  ghost function Average(b: BucketView): Option<real> {
    if |b.samples| == 0 then None
    else Some(Mean(Weighted(b.samples, b.start, b.start + b.duration), b.duration))
  }

  /** An integral divided by the length of the interval. */
  function Mean(integral: real, duration: Pos): real {
    integral / duration as real
  }

  // ---------------------------------------------------------------------------------
  // Extrema, count and last value.

  /** The samples min and max range over: all of them, except that a second sample taken
      exactly at the start of the interval replaces the first one. */
  function Counted(b: BucketView): seq<Sample> {
    if |b.samples| >= 2 && b.samples[1].ts == b.start then b.samples[1..] else b.samples
  }

  function Values(s: seq<Sample>): seq<real> {
    seq(|s|, i requires 0 <= i < |s| => s[i].value)
  }

  function MaxOf(b: BucketView): Option<real> {
    if |b.samples| == 0 then None else Some(SeqMax(Values(Counted(b))))
  }

  function MinOf(b: BucketView): Option<real> {
    if |b.samples| == 0 then None else Some(SeqMin(Values(Counted(b))))
  }

  function LastOf(b: BucketView): Option<real> {
    if |b.samples| == 0 then None else Some(b.samples[|b.samples| - 1].value)
  }

  /** The getters that the circular buffer folds over its slots. */
  datatype Extractor = AverageValue | MinValue | MaxValue | NumValues

  ghost function Stat(b: BucketView, e: Extractor): Option<real> {
    match e
    case AverageValue => Average(b)
    case MinValue => MinOf(b)
    case MaxValue => MaxOf(b)
    case NumValues => Some(|b.samples| as real)
  }

  // ---------------------------------------------------------------------------------
  // Lemmas about the integral.

  lemma {:induction false} WeightedSplit(s: seq<Sample>, lo: int, mid: int, hi: int)
    requires lo <= mid <= hi
    ensures Weighted(s, lo, hi) == Weighted(s, lo, mid) + Weighted(s, mid, hi)
    decreases hi - mid
  {
    if mid < hi {
      WeightedSplit(s, lo, mid, hi - 1);
    }
  }

  /** Two step functions that agree on [lo, hi) have the same integral there. */
  lemma {:induction false} WeightedAgree(s1: seq<Sample>, s2: seq<Sample>, lo: int, hi: int)
    requires forall t :: lo <= t < hi ==> HeldAt(s1, t) == HeldAt(s2, t)
    ensures Weighted(s1, lo, hi) == Weighted(s2, lo, hi)
    decreases hi - lo
  {
    if lo < hi {
      WeightedAgree(s1, s2, lo, hi - 1);
    }
  }

  /** A value held constant over [lo, hi) contributes value times length. */
  lemma {:induction false} WeightedConstant(s: seq<Sample>, lo: int, hi: int, c: real)
    requires lo <= hi
    requires forall t :: lo <= t < hi ==> HeldAt(s, t) == c
    ensures Weighted(s, lo, hi) == c * (hi - lo) as real
    decreases hi - lo
  {
    if lo < hi {
      WeightedConstant(s, lo, hi - 1, c);
      assert c * (hi - lo) as real == c * (hi - 1 - lo) as real + c;
    }
  }

  /** Appending a sample changes the step function only from its timestamp on. */
  lemma HeldAtAppend(s: seq<Sample>, x: Sample, t: int)
    ensures HeldAt(s + [x], t) == if |s| == 0 || x.ts <= t then x.value else HeldAt(s, t)
  {
    assert (s + [x])[..|s|] == s;
  }

  /** After the last sample, the step function is the last value. */
  lemma HeldAtAfterLast(s: seq<Sample>, t: int)
    requires |s| > 0 && s[|s| - 1].ts <= t
    ensures HeldAt(s, t) == s[|s| - 1].value
  {
  }

  /** The accumulator step of addValue for the first sample: it is taken to hold from the
      start of the interval. */
  lemma AppendWeightedFirst(b: BucketView, x: Sample)
    requires |b.samples| == 0 && b.start <= x.ts
    ensures Weighted(b.samples + [x], b.start, x.ts) == x.value * (x.ts - b.start) as real
  {
    var s := b.samples + [x];
    forall t | b.start <= t < x.ts ensures HeldAt(s, t) == x.value {
      HeldAtAppend(b.samples, x, t);
    }
    WeightedConstant(s, b.start, x.ts, x.value);
  }

  /** The accumulator step of addValue for a later sample: the previous value times the
      elapsed time is added (nothing for a sample at the same timestamp). */
  lemma AppendWeightedLater(b: BucketView, x: Sample)
    requires |b.samples| > 0 && b.start <= LastTs(b) <= x.ts
    ensures Weighted(b.samples + [x], b.start, x.ts) ==
      Weighted(b.samples, b.start, LastTs(b)) + b.samples[|b.samples| - 1].value * (x.ts - LastTs(b)) as real
  {
    var s, l := b.samples, LastTs(b);
    var last := s[|s| - 1].value;
    WeightedSplit(s + [x], b.start, l, x.ts);
    assert Weighted(s + [x], b.start, l) == Weighted(s, b.start, l) by {
      forall t | b.start <= t < l ensures HeldAt(s + [x], t) == HeldAt(s, t) {
        HeldAtAppend(s, x, t);
      }
      WeightedAgree(s + [x], s, b.start, l);
    }
    assert Weighted(s + [x], l, x.ts) == last * (x.ts - l) as real by {
      forall t | l <= t < x.ts ensures HeldAt(s + [x], t) == last {
        HeldAtAppend(s, x, t);
        HeldAtAfterLast(s, t);
      }
      WeightedConstant(s + [x], l, x.ts, last);
    }
  }

  /** The average law: the integral over the whole interval is the integral up to the
      last sample (the accumulator) plus the last value times the time left in the interval. */
  lemma AverageLaw(start: int, duration: Pos, s: seq<Sample>, acum: real, lastTs: int, last: real)
    requires WellFormed(BucketView(start, duration, s)) && |s| > 0
    requires lastTs == s[|s| - 1].ts && last == s[|s| - 1].value
    requires acum == Weighted(s, start, lastTs)
    ensures Average(BucketView(start, duration, s)) ==
            Some(Mean(acum + (start + duration - lastTs) as real * last, duration))
  {
    var end := start + duration;
    var total := acum + (start + duration - lastTs) as real * last;
    assert Weighted(s, start, end) == total by {
      assert lastTs <= end;
      WeightedSplit(s, start, lastTs, end);
      forall t | lastTs <= t < end ensures HeldAt(s, t) == last {
        HeldAtAfterLast(s, t);
      }
      WeightedConstant(s, lastTs, end, last);
      assert (start + duration - lastTs) as real * last == last * (end - lastTs) as real;
    }
  }

  /** The integral up to the last sample as a sum of rectangles: the first value from the
      start to its timestamp, then each value from its timestamp to the next sample's. */
  function Rectangles(start: int, s: seq<Sample>): real
    decreases |s|
  {
    if |s| == 0 then 0.0
    else if |s| == 1 then s[0].value * (s[0].ts - start) as real
    else Rectangles(start, s[..|s| - 1]) + s[|s| - 2].value * (s[|s| - 1].ts - s[|s| - 2].ts) as real
  }

  /** The millisecond-by-millisecond integral up to the last sample is the sum of rectangles. */
  lemma {:induction false} WeightedRectangles(b: BucketView)
    requires WellFormed(b)
    ensures Weighted(b.samples, b.start, LastTs(b)) == Rectangles(b.start, b.samples)
    decreases |b.samples|
  {
    var s := b.samples;
    if |s| > 0 {
      var p := b.(samples := s[..|s| - 1]);
      var x := s[|s| - 1];
      assert p.samples + [x] == s;
      assert WellFormed(p) && b.start <= x.ts;
      if |s| == 1 {
        AppendWeightedFirst(p, x);
      } else {
        var y := s[|s| - 2];
        assert LastTs(p) == y.ts && p.samples[|p.samples| - 1] == y;
        assert b.start <= y.ts <= x.ts;
        WeightedRectangles(p);
        AppendWeightedLater(p, x);
        assert Rectangles(b.start, s) == Rectangles(b.start, p.samples) + y.value * (x.ts - y.ts) as real;
      }
    }
  }

  /** A bucket holding a single sample averages to that sample, which is what the count == 1
      shortcut of getAverage returns: v * (t - start) + v * (start + duration - t) = v * duration. */
  lemma SingleSampleAverage(b: BucketView)
    requires WellFormed(b) && |b.samples| == 1
    ensures Average(b) == Some(b.samples[0].value)
  {
    var v, d := b.samples[0].value, b.duration as real;
    WeightedConstant(b.samples, b.start, b.start + b.duration, v);
    assert Weighted(b.samples, b.start, b.start + b.duration) == v * d;
    assert v * d / d == v;
  }

  // ---------------------------------------------------------------------------------
  // Lemmas about construction and extrema.

  /** An empty bucket has no statistics; a seeded one has count 1 and every statistic equal
      to the seed. */
  lemma SeedStats(start: int, duration: Pos, startValue: Option<real>)
    ensures WellFormed(Seed(start, duration, startValue))
    ensures |Seed(start, duration, startValue).samples| == if startValue.None? then 0 else 1
    ensures Average(Seed(start, duration, startValue)) == startValue
    ensures MinOf(Seed(start, duration, startValue)) == startValue
    ensures MaxOf(Seed(start, duration, startValue)) == startValue
    ensures LastOf(Seed(start, duration, startValue)) == startValue
    ensures LastTs(Seed(start, duration, startValue)) == start
  {
    var b := Seed(start, duration, startValue);
    if startValue.Some? {
      SingleSampleAverage(b);
      assert Values(Counted(b)) == [startValue.value];
    }
  }

  lemma ValuesAppend(s: seq<Sample>, x: Sample)
    ensures Values(s + [x]) == Values(s) + [x.value]
  {
  }

  /** Which samples the extrema range over after one more sample. */
  lemma CountedRecord(b: BucketView, v: real, ts: int)
    requires |b.samples| > 0
    ensures Counted(Record(b, v, ts)) ==
      if ts == b.start && |b.samples| == 1 then [Sample(v, ts)] else Counted(b) + [Sample(v, ts)]
  {
    var s := b.samples;
    if |s| >= 2 && s[1].ts == b.start {
      assert Record(b, v, ts).samples[1..] == s[1..] + [Sample(v, ts)];
    }
  }

  /** The min/max update of addValue: the new value joins the extrema, except that a second
      sample at exactly the start of the interval replaces them. */
  lemma RecordExtrema(b: BucketView, v: real, ts: int)
    requires |b.samples| > 0
    ensures MaxOf(Record(b, v, ts)) ==
      if ts == b.start && |b.samples| == 1 then Some(v) else Some(Max(MaxOf(b).value, v))
    ensures MinOf(Record(b, v, ts)) ==
      if ts == b.start && |b.samples| == 1 then Some(v) else Some(Min(MinOf(b).value, v))
  {
    CountedRecord(b, v, ts);
    var x := Sample(v, ts);
    ValuesAppend(Counted(b), x);
    if ts == b.start && |b.samples| == 1 {
      assert Values([x]) == [v];
    } else {
      SeqMaxAppend(Values(Counted(b)), v);
      SeqMinAppend(Values(Counted(b)), v);
    }
  }

  /** Whenever a bucket holds a sample, min <= last <= max. */
  lemma ExtremaBracketLast(b: BucketView)
    requires |b.samples| > 0
    ensures MinOf(b).value <= LastOf(b).value <= MaxOf(b).value
  {
    var c := Values(Counted(b));
    assert c[|c| - 1] == LastOf(b).value;
  }

  /** Accepting a sample keeps a bucket well formed. */
  lemma RecordWellFormed(b: BucketView, v: real, ts: int)
    requires WellFormed(b) && Admit(b, ts) == Ok
    ensures WellFormed(Record(b, v, ts))
    ensures LastTs(Record(b, v, ts)) == ts
  {
  }

  // ---------------------------------------------------------------------------------
  // The bucket object.

  /** The fields a bucket keeps are a summary of its history: acum is the integral from the
      start to the last timestamp, and last, min, max and count are those of the history. */
  ghost predicate Summarises(b: BucketView, acum: real, lastValue: Option<real>, lastTs: int,
                             maxValue: Option<real>, minValue: Option<real>, numValues: nat)
  {
    WellFormed(b) &&
    numValues == |b.samples| &&
    lastTs == LastTs(b) &&
    lastValue == LastOf(b) &&
    maxValue == MaxOf(b) &&
    minValue == MinOf(b) &&
    acum == Weighted(b.samples, b.start, lastTs)
  }

  /** The guarded accumulator update of the later-sample branch, stated on the kept fields:
      it yields the reference integral up to the new timestamp. */
  lemma AccumulateLater(b: BucketView, acum: real, last: real, lastTs: int, v: real, ts: int, acum': real)
    requires |b.samples| > 0 && b.start <= LastTs(b) <= ts
    requires lastTs == LastTs(b) && Some(last) == LastOf(b)
    requires acum == Weighted(b.samples, b.start, lastTs)
    requires acum' == if ts > lastTs then acum + last * (ts - lastTs) as real else acum
    ensures acum' == Weighted(Record(b, v, ts).samples, b.start, ts)
  {
    AppendWeightedLater(b, Sample(v, ts));
    if ts == lastTs {
      assert last * (ts - lastTs) as real == 0.0;
    }
  }

  /** The min/max update of the later-sample branch, stated on the kept fields. */
  lemma LaterExtrema(b: BucketView, maxValue: Option<real>, minValue: Option<real>, v: real, ts: int,
                     max': Option<real>, min': Option<real>)
    requires |b.samples| > 0 && maxValue == MaxOf(b) && minValue == MinOf(b)
    requires max' == if v > maxValue.value || (ts == b.start && |b.samples| == 1) then Some(v) else maxValue
    requires min' == if v < minValue.value || (ts == b.start && |b.samples| == 1) then Some(v) else minValue
    ensures max' == MaxOf(Record(b, v, ts)) && min' == MinOf(Record(b, v, ts))
  {
    RecordExtrema(b, v, ts);
  }

  /** The summary a later sample leaves behind: the later-sample branch of addValue computes
      acum', max' and min' from the previous summary, and they summarise the longer history. */
  lemma LaterSummary(b: BucketView, acum: real, last: real, lastTs: int,
                     maxValue: Option<real>, minValue: Option<real>, numValues: nat, v: real, ts: int,
                     acum': real, max': Option<real>, min': Option<real>)
    requires Summarises(b, acum, Some(last), lastTs, maxValue, minValue, numValues)
    requires numValues > 0 && Admit(b, ts) == Ok
    requires acum' == if ts > lastTs then acum + last * (ts - lastTs) as real else acum
    requires max' == if v > maxValue.value || (ts == b.start && numValues == 1) then Some(v) else maxValue
    requires min' == if v < minValue.value || (ts == b.start && numValues == 1) then Some(v) else minValue
    ensures Summarises(Record(b, v, ts), acum', Some(v), ts, max', min', numValues + 1)
  {
    AccumulateLater(b, acum, last, lastTs, v, ts, acum');
    LaterExtrema(b, maxValue, minValue, v, ts, max', min');
    RecordWellFormed(b, v, ts);
    assert LastOf(Record(b, v, ts)) == Some(v);
  }

  class Bucket {
    const startTimestamp: int
    const bucketDuration: Pos
    var acum: real
    var lastValue: Option<real>
    var lastTimestamp: int
    var maxValue: Option<real>
    var minValue: Option<real>
    var numValues: nat
    /** Every sample accepted so far, in order. */
    ghost var samples: seq<Sample>

    ghost function View(): BucketView
      reads this
    {
      BucketView(startTimestamp, bucketDuration, samples)
    }

    ghost predicate Valid()
      reads this
    {
      Summarises(View(), acum, lastValue, lastTimestamp, maxValue, minValue, numValues)
    }

    constructor (startTimestamp: int, bucketDuration: Pos, startValue: Option<real>)
      ensures Valid()
      ensures View() == Seed(startTimestamp, bucketDuration, startValue)
      ensures GetNumValues() == if startValue.None? then 0 else 1
      ensures GetAverage() == startValue && GetMinValue() == startValue
      ensures GetMaxValue() == startValue && GetLastValue() == startValue
    {
      this.startTimestamp := startTimestamp;
      this.bucketDuration := bucketDuration;
      acum := 0.0;
      lastValue := None;
      lastTimestamp := startTimestamp;
      maxValue := None;
      minValue := None;
      numValues := 0;
      samples := [];
      new;
      if startValue.Some? {
        var outcome := AddValue(startValue.value, startTimestamp);
      }
      SeedStats(startTimestamp, bucketDuration, startValue);
    }

    method AddValue(value: real, timestamp: int) returns (r: Outcome)
      requires Valid()
      modifies this
      ensures Valid()
      ensures r == Admit(old(View()), timestamp)
      ensures r == OutOfRange <==> timestamp < startTimestamp || timestamp > startTimestamp + bucketDuration
      ensures r == BackInTime ==> timestamp < old(lastTimestamp)
      ensures r != Ok ==> unchanged(this)
      ensures r == Ok ==> View() == Record(old(View()), value, timestamp)
      ensures r == Ok ==> numValues == old(numValues) + 1 && lastTimestamp == timestamp
      ensures r == Ok ==> lastValue == Some(value)
    {
      if timestamp < startTimestamp || timestamp > startTimestamp + bucketDuration {
        return OutOfRange;
      }
      if timestamp < lastTimestamp {
        return BackInTime;
      }
      if numValues == 0 {
        RecordFirst(value, timestamp);
      } else {
        RecordLater(value, timestamp);
      }
      r := Ok;
    }

    /** The first-sample branch of addValue: the value is taken to hold from the start. */
    method RecordFirst(value: real, timestamp: int)
      requires Valid() && numValues == 0 && Admit(View(), timestamp) == Ok
      modifies this
      ensures Valid() && View() == Record(old(View()), value, timestamp)
      ensures numValues == 1 && lastTimestamp == timestamp && lastValue == Some(value)
    {
      ghost var before := View();
      ghost var after := Record(before, value, timestamp);
      RecordWellFormed(before, value, timestamp);
      AppendWeightedFirst(before, Sample(value, timestamp));
      lastTimestamp := timestamp;
      lastValue := Some(value);
      maxValue := Some(value);
      minValue := Some(value);
      acum := value * (timestamp - startTimestamp) as real;
      numValues := numValues + 1;
      samples := samples + [Sample(value, timestamp)];
      assert Values(Counted(after)) == [value];
      assert View() == after;
    }

    /** The later-sample branch of addValue: the previous value is integrated up to the new
        timestamp (nothing for the same timestamp) and the extrema are updated. */
    method RecordLater(value: real, timestamp: int)
      requires Valid() && numValues > 0 && Admit(View(), timestamp) == Ok
      modifies this
      ensures Valid() && View() == Record(old(View()), value, timestamp)
      ensures numValues == old(numValues) + 1 && lastTimestamp == timestamp && lastValue == Some(value)
    {
      ghost var before := View();
      var acc, last, lastTs, maxV, minV, count := acum, lastValue.value, lastTimestamp, maxValue, minValue, numValues;
      if timestamp > lastTs {
        acc := acc + last * (timestamp - lastTs) as real;
      }
      if value > maxV.value || (timestamp == startTimestamp && count == 1) {
        maxV := Some(value);
      }
      if value < minV.value || (timestamp == startTimestamp && count == 1) {
        minV := Some(value);
      }
      LaterSummary(before, acum, last, lastTs, maxValue, minValue, count, value, timestamp, acc, maxV, minV);
      acum, maxValue, minValue := acc, maxV, minV;
      lastValue, lastTimestamp, numValues := Some(value), timestamp, count + 1;
      samples := samples + [Sample(value, timestamp)];
      assert View() == Record(before, value, timestamp);
    }

    /** The time-weighted mean of the interval, the last value held to its end. */
    function GetAverage(): (r: Option<real>)
      requires Valid()
      reads this
      ensures r == Average(View())
    {
      if numValues == 0 then None
      else if numValues == 1 then
        SingleSampleAverage(View());
        lastValue
      else
        var start, duration, acc, lastTs, last := startTimestamp, bucketDuration, acum, lastTimestamp, lastValue.value;
        ghost var history := samples;
        AverageLaw(start, duration, history, acc, lastTs, last);
        var average := Mean(acc + (start + duration - lastTs) as real * last, duration);
        assert Average(BucketView(start, duration, history)) == Some(average);
        Some(average)
    }

    function GetMinValue(): (r: Option<real>)
      requires Valid()
      reads this
      ensures r == MinOf(View())
    {
      minValue
    }

    function GetMaxValue(): (r: Option<real>)
      requires Valid()
      reads this
      ensures r == MaxOf(View())
    {
      maxValue
    }

    function GetNumValues(): (r: nat)
      requires Valid()
      reads this
      ensures r == |View().samples|
    {
      numValues
    }

    function GetLastValue(): (r: Option<real>)
      requires Valid()
      reads this
      ensures r == LastOf(View())
    {
      lastValue
    }
  }
}
