/** The worked examples of the repository's test suites, stated on the model: a bucket fed a
    series of samples, and a circular buffer of five 100 ms steps fed the same series. Each
    lemma states that every sample is accepted and what the getters then report. */
module Scenarios {
  import opened Stats
  import opened Buckets
  import opened Window

  /** The bucket after a run of addValue calls, in order. */
  function Feed(b: BucketView, xs: seq<Sample>): (r: BucketView)
    ensures r.start == b.start && r.duration == b.duration && r.samples == b.samples + xs
    decreases |xs|
  {
    if |xs| == 0 then b
    else
      assert b.samples + xs == b.samples + [xs[0]] + xs[1..];
      Feed(Record(b, xs[0].value, xs[0].ts), xs[1..])
  }

  /** Every call of the run is accepted. */
  predicate Accepted(b: BucketView, xs: seq<Sample>)
    decreases |xs|
  {
    |xs| == 0 || (Admit(b, xs[0].ts) == Ok && Accepted(Record(b, xs[0].value, xs[0].ts), xs[1..]))
  }

  /** The fields a bucket keeps, without the history. */
  datatype Fields = Fields(acum: real, last: Option<real>, lastTs: int, max: Option<real>,
                           min: Option<real>, count: nat)

  /** The later-sample branch of addValue on the kept fields alone. `Bucket.RecordLater`
      performs the same update on the object's fields; this copy is a value, so that a run of
      samples can be folded by a function and evaluated inside a lemma, which cannot call a
      method. `LaterKeepsSummary` ties the two together through `LaterSummary`.
      The previous value is integrated up to the new timestamp (the guard only skips a zero
      term), and the extrema take the new value in, except that a second sample at the start
      replaces them. */
  function Later(f: Fields, start: int, v: real, ts: int): (r: Fields)
    requires f.last.Some? && f.max.Some? && f.min.Some?
    ensures r.last == Some(v) && r.lastTs == ts && r.count == f.count + 1
    ensures f.lastTs <= ts ==> r.acum == f.acum + f.last.value * (ts - f.lastTs) as real
    ensures ts == start && f.count == 1 ==> r.max == Some(v) && r.min == Some(v)
    ensures !(ts == start && f.count == 1) ==>
      r.max == Some(Max(f.max.value, v)) && r.min == Some(Min(f.min.value, v))
  {
    Fields(if ts > f.lastTs then f.acum + f.last.value * (ts - f.lastTs) as real else f.acum,
           Some(v), ts,
           if v > f.max.value || (ts == start && f.count == 1) then Some(v) else f.max,
           if v < f.min.value || (ts == start && f.count == 1) then Some(v) else f.min,
           f.count + 1)
  }

  /** The fields after a run of later samples. */
  function Run(f: Fields, start: int, xs: seq<Sample>): (r: Fields)
    requires f.last.Some? && f.max.Some? && f.min.Some?
    ensures r.last.Some? && r.max.Some? && r.min.Some?
    ensures r.count == f.count + |xs|
    decreases |xs|
  {
    if |xs| == 0 then f else Run(Later(f, start, xs[0].value, xs[0].ts), start, xs[1..])
  }

  /** The run's timestamps never go back and stay within the interval. */
  predicate InOrder(lastTs: int, end: int, xs: seq<Sample>)
    decreases |xs|
  {
    |xs| == 0 || (lastTs <= xs[0].ts <= end && InOrder(xs[0].ts, end, xs[1..]))
  }

  /** The fields summarise a history holding at least one sample. */
  ghost predicate SummarisedBy(b: BucketView, f: Fields) {
    f.count > 0 && f.last.Some? && f.max.Some? && f.min.Some? &&
    Summarises(b, f.acum, f.last, f.lastTs, f.max, f.min, f.count)
  }

  /** The later-sample branch keeps the fields a summary of the history. */
  lemma LaterKeepsSummary(b: BucketView, f: Fields, v: real, ts: int)
    requires SummarisedBy(b, f) && Admit(b, ts) == Ok
    ensures SummarisedBy(Record(b, v, ts), Later(f, b.start, v, ts))
  {
    var g := Later(f, b.start, v, ts);
    assert g.last == Some(v) && g.lastTs == ts && g.count == f.count + 1;
    LaterSummary(b, f.acum, f.last.value, f.lastTs, f.max, f.min, f.count, v, ts, g.acum, g.max, g.min);
  }

  /** Folding the later-sample branch over a run whose timestamps are in order keeps the
      fields a summary of the growing history, and every call of the run is accepted. */
  lemma {:induction false} RunSummarises(b: BucketView, f: Fields, xs: seq<Sample>)
    requires SummarisedBy(b, f) && InOrder(f.lastTs, b.start + b.duration, xs)
    ensures Accepted(b, xs)
    ensures SummarisedBy(Feed(b, xs), Run(f, b.start, xs))
    decreases |xs|
  {
    if |xs| > 0 {
      var x := xs[0];
      var b', f' := Record(b, x.value, x.ts), Later(f, b.start, x.value, x.ts);
      assert Admit(b, x.ts) == Ok by {
        assert LastTs(b) == f.lastTs && b.start <= f.lastTs;
      }
      LaterKeepsSummary(b, f, x.value, x.ts);
      assert b'.start == b.start && b'.duration == b.duration && f'.lastTs == x.ts;
      assert InOrder(x.ts, b.start + b.duration, xs[1..]);
      RunSummarises(b', f', xs[1..]);
    }
  }

  /** The source's `getAverage` on the kept fields: the running integral, closed by the last
      value held to the end of the interval, over the duration. */
  function Reported(f: Fields, start: int, duration: Pos): real
    requires f.last.Some?
  {
    Mean(f.acum + (start + duration - f.lastTs) as real * f.last.value, duration)
  }

  /** What the getters report for a history the fields summarise. */
  lemma SummaryStats(b: BucketView, f: Fields)
    requires SummarisedBy(b, f)
    ensures Average(b) == Some(Reported(f, b.start, b.duration))
    ensures MaxOf(b) == f.max && MinOf(b) == f.min && LastOf(b) == f.last && |b.samples| == f.count
  {
    var s, start, duration := b.samples, b.start, b.duration;
    var acum, lastTs, last := f.acum, f.lastTs, f.last.value;
    AverageLaw(start, duration, s, acum, lastTs, last);
    assert b == BucketView(start, duration, s);
    assert Reported(f, start, duration) == Mean(acum + (start + duration - lastTs) as real * last, duration);
  }

  /** The fields of a bucket seeded with v: v taken at the start, nothing integrated yet. */
  function SeedFields(start: int, v: real): Fields {
    Fields(0.0, Some(v), start, Some(v), Some(v), 1)
  }

  /** The first-sample branch of addValue on the kept fields alone. */
  function First(start: int, v: real, ts: int): Fields {
    Fields(v * (ts - start) as real, Some(v), ts, Some(v), Some(v), 1)
  }

  /** A bucket seeded with v and fed a run in order accepts every sample and reports the
      statistics of the fields the run folds to. */
  lemma SeededRun(start: int, duration: Pos, v: real, xs: seq<Sample>, f: Fields)
    requires InOrder(start, start + duration, xs)
    requires Run(SeedFields(start, v), start, xs) == f
    ensures Accepted(Seed(start, duration, Some(v)), xs)
    ensures Average(Feed(Seed(start, duration, Some(v)), xs)) ==
      Some(Reported(f, start, duration))
    ensures MaxOf(Feed(Seed(start, duration, Some(v)), xs)) == f.max
    ensures MinOf(Feed(Seed(start, duration, Some(v)), xs)) == f.min
    ensures LastOf(Feed(Seed(start, duration, Some(v)), xs)) == f.last
  {
    var b := Seed(start, duration, Some(v));
    SeedStats(start, duration, Some(v));
    RunSummarises(b, SeedFields(start, v), xs);
    var fb := Feed(b, xs);
    assert fb.start == start && fb.duration == duration;
    SummaryStats(fb, f);
  }

  /** The first sample of an empty bucket leaves the fields of the first-sample branch. */
  lemma KeptFirst(start: int, duration: Pos, x: Sample)
    requires start <= x.ts <= start + duration
    ensures SummarisedBy(Record(Seed(start, duration, None), x.value, x.ts), First(start, x.value, x.ts))
  {
    var b := Seed(start, duration, None);
    var b1 := Record(b, x.value, x.ts);
    SeedStats(start, duration, None);
    RecordWellFormed(b, x.value, x.ts);
    AppendWeightedFirst(b, x);
    assert b1.samples == [x];
    assert Values(Counted(b1)) == [x.value];
  }

  /** An empty bucket fed a first sample and then a run, all in order, accepts every sample
      and reports the statistics of the fields the run folds to. */
  lemma EmptyRun(start: int, duration: Pos, x: Sample, xs: seq<Sample>, f: Fields)
    requires start <= x.ts && InOrder(x.ts, start + duration, xs)
    requires x.ts <= start + duration
    requires Run(First(start, x.value, x.ts), start, xs) == f
    ensures Accepted(Seed(start, duration, None), [x] + xs)
    ensures Average(Feed(Seed(start, duration, None), [x] + xs)) ==
      Some(Reported(f, start, duration))
    ensures MaxOf(Feed(Seed(start, duration, None), [x] + xs)) == f.max
    ensures MinOf(Feed(Seed(start, duration, None), [x] + xs)) == f.min
    ensures LastOf(Feed(Seed(start, duration, None), [x] + xs)) == f.last
  {
    var b := Seed(start, duration, None);
    var b1 := Record(b, x.value, x.ts);
    var ys := [x] + xs;
    assert ys[0] == x && ys[1..] == xs;
    assert Admit(b, x.ts) == Ok;
    KeptFirst(start, duration, x);
    RunSummarises(b1, First(start, x.value, x.ts), xs);
    assert Accepted(b, ys);
    var fb := Feed(b1, xs);
    assert Feed(b, ys) == fb;
    assert fb.start == start && fb.duration == duration;
    SummaryStats(fb, f);
  }

  // ---------------------------------------------------------------------------------
  // Bucket(start 1000, duration 1000), from the bucket test suite.

  /** The samples of the "Series 1" tests. */
  function SeriesOne(): seq<Sample> {
    [Sample(22.0, 1010), Sample(18.0, 1013), Sample(23.0, 1100), Sample(80.0, 1200),
     Sample(20.0, 1210), Sample(32.0, 1410)]
  }

  /** The samples of the "Series 2" tests: two pairs of samples share a timestamp. */
  function SeriesTwo(): seq<Sample> {
    [Sample(22.0, 1010), Sample(18.0, 1013), Sample(23.0, 1100), Sample(0.0, 1200),
     Sample(80.0, 1200), Sample(100.0, 1210), Sample(20.0, 1210), Sample(32.0, 1410)]
  }

  /** The timestamps of both series never go back and stay within [1000, 2000]. */
  lemma SeriesInOrder()
    ensures InOrder(1000, 2000, SeriesOne()) && InOrder(1010, 2000, SeriesOne()[1..])
    ensures InOrder(1000, 2000, SeriesTwo())
  {
    var xs, ys := SeriesOne(), SeriesTwo();
    assert InOrder(1410, 2000, xs[6..]);
    assert InOrder(1210, 2000, xs[5..]);
    assert InOrder(1200, 2000, xs[4..]);
    assert InOrder(1100, 2000, xs[3..]);
    assert InOrder(1013, 2000, xs[2..]);
    assert InOrder(1010, 2000, xs[1..]);
    assert InOrder(1410, 2000, ys[8..]);
    assert InOrder(1210, 2000, ys[7..]);
    assert InOrder(1210, 2000, ys[6..]);
    assert InOrder(1200, 2000, ys[5..]);
    assert InOrder(1200, 2000, ys[4..]);
    assert InOrder(1100, 2000, ys[3..]);
    assert InOrder(1013, 2000, ys[2..]);
    assert InOrder(1010, 2000, ys[1..]);
  }

  /** One call of a run: the run continues from the fields that call leaves. */
  lemma RunStep(f: Fields, start: int, x: Sample, xs: seq<Sample>, g: Fields)
    requires f.last.Some? && f.max.Some? && f.min.Some?
    requires Later(f, start, x.value, x.ts) == g
    ensures Run(f, start, [x] + xs) == Run(g, start, xs)
  {
    assert ([x] + xs)[1..] == xs;
  }

  /** The fields of a bucket seeded with 23 after the "Series 1" calls. */
  lemma SeriesOneFolds()
    ensures Run(SeedFields(1000, 23.0), 1000, SeriesOne()) ==
      Fields(8962.0, Some(32.0), 1410, Some(80.0), Some(18.0), 7)
  {
    var f6 := Fields(8962.0, Some(32.0), 1410, Some(80.0), Some(18.0), 7);
    var f5 := Fields(4962.0, Some(20.0), 1210, Some(80.0), Some(18.0), 6);
    var f4 := Fields(4162.0, Some(80.0), 1200, Some(80.0), Some(18.0), 5);
    var f3 := Fields(1862.0, Some(23.0), 1100, Some(23.0), Some(18.0), 4);
    var f2 := Fields(296.0, Some(18.0), 1013, Some(23.0), Some(18.0), 3);
    var f1 := Fields(230.0, Some(22.0), 1010, Some(23.0), Some(22.0), 2);
    RunStep(f5, 1000, Sample(32.0, 1410), [], f6);
    RunStep(f4, 1000, Sample(20.0, 1210), [Sample(32.0, 1410)], f5);
    RunStep(f3, 1000, Sample(80.0, 1200), [Sample(20.0, 1210), Sample(32.0, 1410)], f4);
    RunStep(f2, 1000, Sample(23.0, 1100), SeriesOne()[3..], f3);
    RunStep(f1, 1000, Sample(18.0, 1013), SeriesOne()[2..], f2);
    RunStep(SeedFields(1000, 23.0), 1000, Sample(22.0, 1010), SeriesOne()[1..], f1);
    assert [Sample(32.0, 1410)] + [] == [Sample(32.0, 1410)];
    assert SeriesOne()[4..] == [Sample(20.0, 1210)] + [Sample(32.0, 1410)];
    assert SeriesOne()[3..] == [Sample(80.0, 1200)] + SeriesOne()[4..];
    assert SeriesOne()[2..] == [Sample(23.0, 1100)] + SeriesOne()[3..];
    assert SeriesOne()[1..] == [Sample(18.0, 1013)] + SeriesOne()[2..];
    assert SeriesOne() == [Sample(22.0, 1010)] + SeriesOne()[1..];
  }

  /** The fields of a bucket seeded with 23 after the last five "Series 2" calls. */
  lemma SeriesTwoTailFolds()
    ensures Run(Fields(1862.0, Some(23.0), 1100, Some(23.0), Some(18.0), 4), 1000, SeriesTwo()[3..]) ==
      Fields(8962.0, Some(32.0), 1410, Some(100.0), Some(0.0), 9)
  {
    var xs := SeriesTwo();
    var f8 := Fields(8962.0, Some(32.0), 1410, Some(100.0), Some(0.0), 9);
    var f7 := Fields(4962.0, Some(20.0), 1210, Some(100.0), Some(0.0), 8);
    var f6 := Fields(4962.0, Some(100.0), 1210, Some(100.0), Some(0.0), 7);
    var f5 := Fields(4162.0, Some(80.0), 1200, Some(80.0), Some(0.0), 6);
    var f4 := Fields(4162.0, Some(0.0), 1200, Some(23.0), Some(0.0), 5);
    var f3 := Fields(1862.0, Some(23.0), 1100, Some(23.0), Some(18.0), 4);
    RunStep(f7, 1000, Sample(32.0, 1410), [], f8);
    RunStep(f6, 1000, Sample(20.0, 1210), xs[7..], f7);
    RunStep(f5, 1000, Sample(100.0, 1210), xs[6..], f6);
    RunStep(f4, 1000, Sample(80.0, 1200), xs[5..], f5);
    RunStep(f3, 1000, Sample(0.0, 1200), xs[4..], f4);
    assert xs[7..] == [Sample(32.0, 1410)] + [];
    assert xs[6..] == [Sample(20.0, 1210)] + xs[7..];
    assert xs[5..] == [Sample(100.0, 1210)] + xs[6..];
    assert xs[4..] == [Sample(80.0, 1200)] + xs[5..];
    assert xs[3..] == [Sample(0.0, 1200)] + xs[4..];
  }

  /** The fields of a bucket seeded with 23 after the "Series 2" calls. */
  lemma SeriesTwoFolds()
    ensures Run(SeedFields(1000, 23.0), 1000, SeriesTwo()) ==
      Fields(8962.0, Some(32.0), 1410, Some(100.0), Some(0.0), 9)
  {
    var xs := SeriesTwo();
    var f3 := Fields(1862.0, Some(23.0), 1100, Some(23.0), Some(18.0), 4);
    var f2 := Fields(296.0, Some(18.0), 1013, Some(23.0), Some(18.0), 3);
    var f1 := Fields(230.0, Some(22.0), 1010, Some(23.0), Some(22.0), 2);
    SeriesTwoTailFolds();
    RunStep(f2, 1000, Sample(23.0, 1100), xs[3..], f3);
    RunStep(f1, 1000, Sample(18.0, 1013), xs[2..], f2);
    RunStep(SeedFields(1000, 23.0), 1000, Sample(22.0, 1010), xs[1..], f1);
    assert xs[2..] == [Sample(23.0, 1100)] + xs[3..];
    assert xs[1..] == [Sample(18.0, 1013)] + xs[2..];
    assert xs == [Sample(22.0, 1010)] + xs[1..];
  }

  /** The fields of an empty bucket after the "Series 1" calls, the first one having taken
      the first-sample branch. */
  lemma SeriesThreeFolds()
    ensures Run(First(1000, 22.0, 1010), 1000, SeriesOne()[1..]) ==
      Fields(8952.0, Some(32.0), 1410, Some(80.0), Some(18.0), 6)
  {
    var xs := SeriesOne();
    var f5 := Fields(8952.0, Some(32.0), 1410, Some(80.0), Some(18.0), 6);
    var f4 := Fields(4952.0, Some(20.0), 1210, Some(80.0), Some(18.0), 5);
    var f3 := Fields(4152.0, Some(80.0), 1200, Some(80.0), Some(18.0), 4);
    var f2 := Fields(1852.0, Some(23.0), 1100, Some(23.0), Some(18.0), 3);
    var f1 := Fields(286.0, Some(18.0), 1013, Some(22.0), Some(18.0), 2);
    RunStep(f4, 1000, xs[5], [], f5);
    RunStep(f3, 1000, xs[4], xs[5..], f4);
    RunStep(f2, 1000, xs[3], xs[4..], f3);
    RunStep(f1, 1000, xs[2], xs[3..], f2);
    RunStep(First(1000, 22.0, 1010), 1000, xs[1], xs[2..], f1);
    assert xs[5..] == [xs[5]] + [];
    assert xs[4..] == [xs[4]] + xs[5..];
    assert xs[3..] == [xs[3]] + xs[4..];
    assert xs[2..] == [xs[2]] + xs[3..];
    assert xs[1..] == [xs[1]] + xs[2..];
  }

  /** What a bucket seeded with 23 reports after the "Series 1" calls, through the fields
      the run folds to. */
  lemma SeededSeriesOne()
    ensures Accepted(Seed(1000, 1000, Some(23.0)), SeriesOne())
    ensures Average(Feed(Seed(1000, 1000, Some(23.0)), SeriesOne())) ==
      Some(Reported(Fields(8962.0, Some(32.0), 1410, Some(80.0), Some(18.0), 7), 1000, 1000))
    ensures MaxOf(Feed(Seed(1000, 1000, Some(23.0)), SeriesOne())) == Some(80.0)
    ensures MinOf(Feed(Seed(1000, 1000, Some(23.0)), SeriesOne())) == Some(18.0)
  {
    SeriesOneFolds();
    SeriesInOrder();
    SeededRun(1000, 1000, 23.0, SeriesOne(), Fields(8962.0, Some(32.0), 1410, Some(80.0), Some(18.0), 7));
  }

  /** The same for the "Series 2" calls. */
  lemma SeededSeriesTwo()
    ensures Accepted(Seed(1000, 1000, Some(23.0)), SeriesTwo())
    ensures Average(Feed(Seed(1000, 1000, Some(23.0)), SeriesTwo())) ==
      Some(Reported(Fields(8962.0, Some(32.0), 1410, Some(100.0), Some(0.0), 9), 1000, 1000))
    ensures MaxOf(Feed(Seed(1000, 1000, Some(23.0)), SeriesTwo())) == Some(100.0)
    ensures MinOf(Feed(Seed(1000, 1000, Some(23.0)), SeriesTwo())) == Some(0.0)
  {
    SeriesTwoFolds();
    SeriesInOrder();
    SeededRun(1000, 1000, 23.0, SeriesTwo(), Fields(8962.0, Some(32.0), 1410, Some(100.0), Some(0.0), 9));
  }

  /** What an empty bucket reports after the "Series 1" calls. */
  lemma EmptySeriesOne()
    ensures Accepted(Seed(1000, 1000, None), SeriesOne())
    ensures Average(Feed(Seed(1000, 1000, None), SeriesOne())) ==
      Some(Reported(Fields(8952.0, Some(32.0), 1410, Some(80.0), Some(18.0), 6), 1000, 1000))
  {
    var rest := SeriesOne()[1..];
    assert [Sample(22.0, 1010)] + rest == SeriesOne();
    SeriesThreeFolds();
    SeriesInOrder();
    EmptyRun(1000, 1000, Sample(22.0, 1010), rest, Fields(8952.0, Some(32.0), 1410, Some(80.0), Some(18.0), 6));
  }

  /** Series 1 on a bucket seeded with 23: every value is weighted by how long it held, the
      last one to the end of the interval. */
  lemma BucketSeriesOne()
    ensures Accepted(Seed(1000, 1000, Some(23.0)), SeriesOne())
    ensures Average(Feed(Seed(1000, 1000, Some(23.0)), SeriesOne())) ==
      Some((10.0 * 23.0 + 3.0 * 22.0 + 87.0 * 18.0 + 100.0 * 23.0 + 10.0 * 80.0 +
            200.0 * 20.0 + 590.0 * 32.0) / 1000.0)
    ensures MaxOf(Feed(Seed(1000, 1000, Some(23.0)), SeriesOne())) == Some(80.0)
    ensures MinOf(Feed(Seed(1000, 1000, Some(23.0)), SeriesOne())) == Some(18.0)
  {
    SeededSeriesOne();
  }

  /** Series 2: a sample at the timestamp of the previous one replaces it in the average,
      but both count for the extrema. */
  lemma BucketSeriesTwo()
    ensures Accepted(Seed(1000, 1000, Some(23.0)), SeriesTwo())
    ensures Average(Feed(Seed(1000, 1000, Some(23.0)), SeriesTwo())) ==
      Some((10.0 * 23.0 + 3.0 * 22.0 + 87.0 * 18.0 + 100.0 * 23.0 + 10.0 * 80.0 +
            200.0 * 20.0 + 590.0 * 32.0) / 1000.0)
    ensures MaxOf(Feed(Seed(1000, 1000, Some(23.0)), SeriesTwo())) == Some(100.0)
    ensures MinOf(Feed(Seed(1000, 1000, Some(23.0)), SeriesTwo())) == Some(0.0)
  {
    SeededSeriesTwo();
  }

  /** Series 1 on an empty bucket: the first value is taken to hold from the start. */
  lemma BucketSeriesThree()
    ensures Accepted(Seed(1000, 1000, None), SeriesOne())
    ensures Average(Feed(Seed(1000, 1000, None), SeriesOne())) ==
      Some((13.0 * 22.0 + 87.0 * 18.0 + 100.0 * 23.0 + 10.0 * 80.0 + 200.0 * 20.0 + 590.0 * 32.0) / 1000.0)
  {
    EmptySeriesOne();
  }

  /** The bucket test suite's "Time continuum": samples before the start or after the end of
      the interval are out of range, and one earlier than the last sample goes back in time. */
  lemma TimeContinuum()
    ensures Admit(Seed(1000, 1000, Some(23.0)), 1) == OutOfRange
    ensures Admit(Seed(1000, 1000, Some(23.0)), 2001) == OutOfRange
    ensures Admit(Seed(1000, 1000, Some(23.0)), 1005) == Ok
    ensures Admit(Record(Seed(1000, 1000, Some(23.0)), 0.0, 1005), 1003) == BackInTime
  {
  }

  /** A second sample at the very start of the interval replaces the seed in the extrema. */
  lemma OverrideAtStart()
    ensures Accepted(Seed(1000, 1000, Some(23.0)), [Sample(10.0, 1000)])
    ensures MaxOf(Feed(Seed(1000, 1000, Some(23.0)), [Sample(10.0, 1000)])) == Some(10.0)
    ensures Accepted(Seed(1000, 1000, Some(23.0)), [Sample(30.0, 1000)])
    ensures MinOf(Feed(Seed(1000, 1000, Some(23.0)), [Sample(30.0, 1000)])) == Some(30.0)
  {
    SeededRun(1000, 1000, 23.0, [Sample(10.0, 1000)], Fields(0.0, Some(10.0), 1000, Some(10.0), Some(10.0), 2));
    SeededRun(1000, 1000, 23.0, [Sample(30.0, 1000)], Fields(0.0, Some(30.0), 1000, Some(30.0), Some(30.0), 2));
  }

  /** Two samples at the same timestamp: the later one replaces the earlier one from that
      timestamp on, in the average and as the last value. */
  lemma SameTimestampOverride()
    ensures Accepted(Seed(1000, 1000, Some(20.0)), [Sample(10.0, 1500), Sample(30.0, 1500)])
    ensures Average(Feed(Seed(1000, 1000, Some(20.0)), [Sample(10.0, 1500)])) == Some(15.0)
    ensures LastOf(Feed(Seed(1000, 1000, Some(20.0)), [Sample(10.0, 1500)])) == Some(10.0)
    ensures Average(Feed(Seed(1000, 1000, Some(20.0)), [Sample(10.0, 1500), Sample(30.0, 1500)])) == Some(25.0)
    ensures LastOf(Feed(Seed(1000, 1000, Some(20.0)), [Sample(10.0, 1500), Sample(30.0, 1500)])) == Some(30.0)
  {
    SeededRun(1000, 1000, 20.0, [Sample(10.0, 1500)], Fields(10000.0, Some(10.0), 1500, Some(20.0), Some(10.0), 2));
    SeededRun(1000, 1000, 20.0, [Sample(10.0, 1500), Sample(30.0, 1500)],
              Fields(10000.0, Some(30.0), 1500, Some(30.0), Some(10.0), 3));
  }

  // ---------------------------------------------------------------------------------
  // BucketedCircularBuffer(100 ms, 5 buckets, start 1000), from the buffer test suite.

  /** One addValue of the buffer on its slots, after a call at timestamp ts: the move to the
      sample's step, then the insertion into that step's bucket. */
  function Put(slots: Slots, n: Pos, size: Pos, ts: nat, x: Sample): (r: Slots)
    requires |slots| == n && ts <= x.ts
    requires Step(ts, size) <= Step(x.ts, size)
    requires Step(ts, size) == Step(x.ts, size) ==> slots[BucketIndex(Step(ts, size), n)].Some?
    ensures |r| == n
  {
    var cur, next := Step(ts, size), Step(x.ts, size);
    Insert(Move(slots, n, size, cur, next), n, next, x.value, x.ts)
  }

  /** Timestamps that never go back in time, starting from ts. */
  predicate Ascending(ts: int, xs: seq<Sample>)
    decreases |xs|
  {
    |xs| == 0 || (ts <= xs[0].ts && Ascending(xs[0].ts, xs[1..]))
  }

  /** A run of addValue calls on the slots, the last call having been at ts. */
  ghost function Replay(slots: Slots, n: Pos, size: Pos, ts: nat, xs: seq<Sample>): (r: Slots)
    requires WindowInv(slots, n, size, Step(ts, size), ts) && Ascending(ts, xs)
    ensures |r| == n
    decreases |xs|
  {
    if |xs| == 0 then slots
    else
      var x := xs[0];
      MoveKeepsInv(slots, n, size, ts, x.ts);
      InsertKeepsInv(Move(slots, n, size, Step(ts, size), Step(x.ts, size)), n, size, Step(x.ts, size), x.value, x.ts);
      Replay(Put(slots, n, size, ts, x), n, size, x.ts, xs[1..])
  }

  /** One addValue call of a run: the window invariant carries over to the slots after it,
      and the rest of the run continues from them. */
  lemma RingUnfold(slots: Slots, n: Pos, size: Pos, ts: nat, xs: seq<Sample>)
    requires WindowInv(slots, n, size, Step(ts, size), ts) && Ascending(ts, xs) && |xs| > 0
    ensures ts <= xs[0].ts && Step(ts, size) <= Step(xs[0].ts, size)
    ensures Step(ts, size) == Step(xs[0].ts, size) ==> slots[BucketIndex(Step(ts, size), n)].Some?
    ensures WindowInv(Put(slots, n, size, ts, xs[0]), n, size, Step(xs[0].ts, size), xs[0].ts)
    ensures Ascending(xs[0].ts, xs[1..])
    ensures Replay(slots, n, size, ts, xs) == Replay(Put(slots, n, size, ts, xs[0]), n, size, xs[0].ts, xs[1..])
  {
    var x := xs[0];
    MoveKeepsInv(slots, n, size, ts, x.ts);
    InsertKeepsInv(Move(slots, n, size, Step(ts, size), Step(x.ts, size)), n, size, Step(x.ts, size), x.value, x.ts);
  }

  /** A bucket of the buffer's 100 ms steps. */
  function Bucket100(start: int, samples: seq<Sample>): BucketView { BucketView(start, 100, samples) }

  /** The calls shared by the buffer's "Series 1" and "Series 3" tests, which differ only
      in the first value. */
  function FirstSix(v: real): seq<Sample> {
    [Sample(v, 1010), Sample(18.0, 1013), Sample(23.0, 1100), Sample(80.0, 1200),
     Sample(20.0, 1210), Sample(32.0, 1410)]
  }

  // The slots after each of those calls.
  function SlotsAfter0(): Slots { [Some(Bucket100(1000, [])), None, None, None, None] }
  function SlotsAfter1(v: real): Slots { [Some(Bucket100(1000, [Sample(v, 1010)])), None, None, None, None] }
  function SlotsAfter2(v: real): Slots { [Some(Bucket100(1000, [Sample(v, 1010), Sample(18.0, 1013)])), None, None, None, None] }
  function SlotsAfter3(v: real): Slots {
    SlotsAfter2(v)[1 := Some(Bucket100(1100, [Sample(18.0, 1100), Sample(23.0, 1100)]))]
  }
  function SlotsAfter4(v: real): Slots {
    SlotsAfter3(v)[2 := Some(Bucket100(1200, [Sample(23.0, 1200), Sample(80.0, 1200)]))]
  }
  function SlotsAfter5(v: real): Slots {
    SlotsAfter3(v)[2 := Some(Bucket100(1200, [Sample(23.0, 1200), Sample(80.0, 1200), Sample(20.0, 1210)]))]
  }
  function SlotsAfter6(v: real): Slots {
    SlotsAfter5(v)[3 := Some(Bucket100(0, [Sample(20.0, 0)]))][4 := Some(Bucket100(1400, [Sample(20.0, 1400), Sample(32.0, 1410)]))]
  }
  function SlotsAfter7(v: real): Slots {
    SlotsAfter6(v)[0 := Some(Bucket100(1500, [Sample(32.0, 1500), Sample(32.0, 1510)]))]
  }

  lemma RingStart() ensures InitialSlots(5, 100, 1000) == SlotsAfter0() {
    assert Step(1000, 100) == 10 && BucketIndex(10, 5) == 0;
    var s := InitialSlots(5, 100, 1000);
    assert s[0] == Some(Seed(1000, 100, None)) == SlotsAfter0()[0];
    assert s[1] == None && s[2] == None && s[3] == None && s[4] == None;
  }
  lemma RingStep1(v: real) ensures Put(SlotsAfter0(), 5, 100, 1000, Sample(v, 1010)) == SlotsAfter1(v) {
    assert Step(1000, 100) == 10 && Step(1010, 100) == 10 && BucketIndex(10, 5) == 0;
    assert Record(Bucket100(1000, []), v, 1010) == Bucket100(1000, [Sample(v, 1010)]);
  }
  lemma RingStep2(v: real) ensures Put(SlotsAfter1(v), 5, 100, 1010, Sample(18.0, 1013)) == SlotsAfter2(v) {
    assert Step(1010, 100) == 10 && Step(1013, 100) == 10 && BucketIndex(10, 5) == 0;
    assert [Sample(v, 1010)] + [Sample(18.0, 1013)] == [Sample(v, 1010), Sample(18.0, 1013)];
  }
  lemma RingStep3(v: real) ensures Put(SlotsAfter2(v), 5, 100, 1013, Sample(23.0, 1100)) == SlotsAfter3(v) {
    assert Step(1013, 100) == 10 && Step(1100, 100) == 11;
    assert BucketIndex(10, 5) == 0 && BucketIndex(11, 5) == 1;
    assert Carry(SlotsAfter2(v), 5, 10) == Some(18.0);
    assert [Sample(18.0, 1100)] + [Sample(23.0, 1100)] == [Sample(18.0, 1100), Sample(23.0, 1100)];
  }
  lemma RingStep4(v: real) ensures Put(SlotsAfter3(v), 5, 100, 1100, Sample(80.0, 1200)) == SlotsAfter4(v) {
    assert Step(1100, 100) == 11 && Step(1200, 100) == 12;
    assert BucketIndex(11, 5) == 1 && BucketIndex(12, 5) == 2;
    assert Carry(SlotsAfter3(v), 5, 11) == Some(23.0);
    assert [Sample(23.0, 1200)] + [Sample(80.0, 1200)] == [Sample(23.0, 1200), Sample(80.0, 1200)];
  }
  lemma RingStep5(v: real) ensures Put(SlotsAfter4(v), 5, 100, 1200, Sample(20.0, 1210)) == SlotsAfter5(v) {
    assert Step(1200, 100) == 12 && Step(1210, 100) == 12 && BucketIndex(12, 5) == 2;
    assert [Sample(23.0, 1200), Sample(80.0, 1200)] + [Sample(20.0, 1210)] ==
      [Sample(23.0, 1200), Sample(80.0, 1200), Sample(20.0, 1210)];
  }
  /** The move over step 13 fills its slot with the last value of step 12. */
  lemma RingStep6(v: real) ensures Put(SlotsAfter5(v), 5, 100, 1210, Sample(32.0, 1410)) == SlotsAfter6(v) {
    assert Step(1210, 100) == 12 && Step(1410, 100) == 14;
    assert BucketIndex(12, 5) == 2 && BucketIndex(14, 5) == 4;
    assert Carry(SlotsAfter5(v), 5, 12) == Some(20.0);
    var gap := ClearGap(SlotsAfter5(v), 5, 100, 12, 2, Some(20.0));
    assert !Skipped(0, 12, 2, 5) && !Skipped(1, 12, 2, 5) && !Skipped(2, 12, 2, 5);
    assert Skipped(3, 12, 2, 5) && !Skipped(4, 12, 2, 5);
    assert gap == SlotsAfter5(v)[3 := Some(Bucket100(0, [Sample(20.0, 0)]))];
    assert [Sample(20.0, 1400)] + [Sample(32.0, 1410)] == [Sample(20.0, 1400), Sample(32.0, 1410)];
  }
  /** The move to step 15 reuses the slot of step 10. */
  lemma RingStep7(v: real) ensures Put(SlotsAfter6(v), 5, 100, 1410, Sample(32.0, 1510)) == SlotsAfter7(v) {
    assert Step(1410, 100) == 14 && Step(1510, 100) == 15;
    assert BucketIndex(14, 5) == 4 && BucketIndex(15, 5) == 0;
    assert Carry(SlotsAfter6(v), 5, 14) == Some(32.0);
    assert [Sample(32.0, 1500)] + [Sample(32.0, 1510)] == [Sample(32.0, 1500), Sample(32.0, 1510)];
  }

  /** The six shared calls never go back in time, whatever follows at 1410 or later. */
  lemma SixAscending(v: real, rest: seq<Sample>)
    requires Ascending(1410, rest)
    ensures Ascending(1000, FirstSix(v) + rest)
    ensures Ascending(1100, FirstSix(v)[3..] + rest)
  {
    var xs := FirstSix(v) + rest;
    assert xs[3..] == FirstSix(v)[3..] + rest;
    assert xs[5..] == [Sample(32.0, 1410)] + rest;
    assert Ascending(1210, xs[5..]);
    assert xs[4..][1..] == xs[5..];
    assert Ascending(1200, xs[4..]);
    assert xs[3..][1..] == xs[4..];
    assert Ascending(1100, xs[3..]);
    assert xs[2..][1..] == xs[3..];
    assert Ascending(1013, xs[2..]);
    assert xs[1..][1..] == xs[2..];
    assert Ascending(1010, xs[1..]);
  }

  /** The first three calls of every buffer series. */
  function FirstThree(v: real): seq<Sample> { [Sample(v, 1010), Sample(18.0, 1013), Sample(23.0, 1100)] }

  /** The first three calls: into step 10 twice, then a move of one step. */
  lemma RingFirstThree(v: real, tail: seq<Sample>)
    requires Ascending(1100, tail)
    ensures WindowInv(InitialSlots(5, 100, 1000), 5, 100, Step(1000, 100), 1000)
    ensures Ascending(1000, FirstThree(v) + tail)
    ensures WindowInv(SlotsAfter3(v), 5, 100, Step(1100, 100), 1100)
    ensures Replay(InitialSlots(5, 100, 1000), 5, 100, 1000, FirstThree(v) + tail) == Replay(SlotsAfter3(v), 5, 100, 1100, tail)
  {
    var xs := FirstThree(v) + tail;
    assert xs[1..] == FirstThree(v)[1..] + tail && xs[2..] == FirstThree(v)[2..] + tail && xs[3..] == tail;
    assert xs[1..][1..] == xs[2..] && xs[2..][1..] == xs[3..];
    assert Ascending(1013, xs[2..]) && Ascending(1010, xs[1..]);
    InitialInv(5, 100, 1000);
    RingStart();
    assert Step(1000, 100) == 10;
    RingUnfold(SlotsAfter0(), 5, 100, 1000, xs);
    RingStep1(v);
    RingUnfold(SlotsAfter1(v), 5, 100, 1010, xs[1..]);
    RingStep2(v);
    RingUnfold(SlotsAfter2(v), 5, 100, 1013, xs[2..]);
    RingStep3(v);
  }

  /** The next three calls: a move of one step, a call in the same step, then a move of two
      steps. */
  lemma RingNextThree(v: real, rest: seq<Sample>)
    requires Ascending(1410, rest)
    requires WindowInv(SlotsAfter3(v), 5, 100, Step(1100, 100), 1100) && Ascending(1100, FirstSix(v)[3..] + rest)
    ensures WindowInv(SlotsAfter6(v), 5, 100, Step(1410, 100), 1410)
    ensures Replay(SlotsAfter3(v), 5, 100, 1100, FirstSix(v)[3..] + rest) == Replay(SlotsAfter6(v), 5, 100, 1410, rest)
  {
    var xs := FirstSix(v)[3..] + rest;
    assert xs[1..] == FirstSix(v)[4..] + rest && xs[2..] == FirstSix(v)[5..] + rest && xs[3..] == rest;
    assert xs[1..][1..] == xs[2..] && xs[2..][1..] == xs[3..];
    RingUnfold(SlotsAfter3(v), 5, 100, 1100, xs);
    RingStep4(v);
    RingUnfold(SlotsAfter4(v), 5, 100, 1200, xs[1..]);
    RingStep5(v);
    RingUnfold(SlotsAfter5(v), 5, 100, 1210, xs[2..]);
    RingStep6(v);
  }

  /** The slots after the six shared calls, and the run from there on. */
  lemma RingSixSlots(v: real, rest: seq<Sample>)
    requires Ascending(1410, rest)
    ensures WindowInv(InitialSlots(5, 100, 1000), 5, 100, Step(1000, 100), 1000)
    ensures Ascending(1000, FirstSix(v) + rest)
    ensures WindowInv(SlotsAfter6(v), 5, 100, Step(1410, 100), 1410)
    ensures Replay(InitialSlots(5, 100, 1000), 5, 100, 1000, FirstSix(v) + rest) == Replay(SlotsAfter6(v), 5, 100, 1410, rest)
  {
    SixAscending(v, rest);
    assert FirstSix(v) + rest == FirstThree(v) + (FirstSix(v)[3..] + rest);
    RingFirstThree(v, FirstSix(v)[3..] + rest);
    RingNextThree(v, rest);
  }

  /** The slots after the "Series 1" calls. */
  lemma RingSeriesOneSlots()
    ensures WindowInv(InitialSlots(5, 100, 1000), 5, 100, Step(1000, 100), 1000)
    ensures Ascending(1000, SeriesOne())
    ensures Replay(InitialSlots(5, 100, 1000), 5, 100, 1000, SeriesOne()) == SlotsAfter6(22.0)
  {
    RingSixSlots(22.0, []);
    assert FirstSix(22.0) + [] == SeriesOne();
  }

  /** The samples of the buffer's "Series 3" test. */
  function SeriesThree(): seq<Sample> { FirstSix(1.0) + [Sample(32.0, 1510)] }

  /** The slots after the "Series 3" calls. */
  lemma RingSeriesThreeSlots()
    ensures WindowInv(InitialSlots(5, 100, 1000), 5, 100, Step(1000, 100), 1000)
    ensures Ascending(1000, SeriesThree())
    ensures Replay(InitialSlots(5, 100, 1000), 5, 100, 1000, SeriesThree()) == SlotsAfter7(1.0)
  {
    var rest := [Sample(32.0, 1510)];
    assert Ascending(1410, rest);
    RingSixSlots(1.0, rest);
    RingUnfold(SlotsAfter6(1.0), 5, 100, 1410, rest);
    RingStep7(1.0);
    assert rest[1..] == [];
  }

  /** The slots' buckets as runs of samples on their seeds. */
  lemma SlotTen()
    ensures Average(Bucket100(1000, [Sample(22.0, 1010), Sample(18.0, 1013)])) == Some(18.52)
    ensures MaxOf(Bucket100(1000, [Sample(22.0, 1010), Sample(18.0, 1013)])) == Some(22.0)
    ensures MinOf(Bucket100(1000, [Sample(22.0, 1010), Sample(18.0, 1013)])) == Some(18.0)
  {
    var f := Fields(286.0, Some(18.0), 1013, Some(22.0), Some(18.0), 2);
    assert Run(First(1000, 22.0, 1010), 1000, [Sample(18.0, 1013)]) == f;
    EmptyRun(1000, 100, Sample(22.0, 1010), [Sample(18.0, 1013)], f);
    assert Feed(Seed(1000, 100, None), [Sample(22.0, 1010)] + [Sample(18.0, 1013)]) ==
      Bucket100(1000, [Sample(22.0, 1010), Sample(18.0, 1013)]);
  }

  lemma SlotEleven()
    ensures Average(Bucket100(1100, [Sample(18.0, 1100), Sample(23.0, 1100)])) == Some(23.0)
    ensures MaxOf(Bucket100(1100, [Sample(18.0, 1100), Sample(23.0, 1100)])) == Some(23.0)
    ensures MinOf(Bucket100(1100, [Sample(18.0, 1100), Sample(23.0, 1100)])) == Some(23.0)
  {
    var f := Fields(0.0, Some(23.0), 1100, Some(23.0), Some(23.0), 2);
    SeededRun(1100, 100, 18.0, [Sample(23.0, 1100)], f);
    assert Feed(Seed(1100, 100, Some(18.0)), [Sample(23.0, 1100)]) ==
      Bucket100(1100, [Sample(18.0, 1100), Sample(23.0, 1100)]);
  }

  lemma SlotTwelve()
    ensures Average(Bucket100(1200, [Sample(23.0, 1200), Sample(80.0, 1200), Sample(20.0, 1210)])) == Some(26.0)
    ensures MaxOf(Bucket100(1200, [Sample(23.0, 1200), Sample(80.0, 1200), Sample(20.0, 1210)])) == Some(80.0)
    ensures MinOf(Bucket100(1200, [Sample(23.0, 1200), Sample(80.0, 1200), Sample(20.0, 1210)])) == Some(20.0)
  {
    var f := Fields(800.0, Some(20.0), 1210, Some(80.0), Some(20.0), 3);
    assert Run(SeedFields(1200, 23.0), 1200, [Sample(80.0, 1200), Sample(20.0, 1210)]) == f;
    SeededRun(1200, 100, 23.0, [Sample(80.0, 1200), Sample(20.0, 1210)], f);
    assert Feed(Seed(1200, 100, Some(23.0)), [Sample(80.0, 1200), Sample(20.0, 1210)]) ==
      Bucket100(1200, [Sample(23.0, 1200), Sample(80.0, 1200), Sample(20.0, 1210)]);
  }

  lemma SlotFourteen()
    ensures Average(Bucket100(1400, [Sample(20.0, 1400), Sample(32.0, 1410)])) == Some(30.8)
    ensures MaxOf(Bucket100(1400, [Sample(20.0, 1400), Sample(32.0, 1410)])) == Some(32.0)
    ensures MinOf(Bucket100(1400, [Sample(20.0, 1400), Sample(32.0, 1410)])) == Some(20.0)
  {
    var f := Fields(200.0, Some(32.0), 1410, Some(32.0), Some(20.0), 2);
    SeededRun(1400, 100, 20.0, [Sample(32.0, 1410)], f);
    assert Feed(Seed(1400, 100, Some(20.0)), [Sample(32.0, 1410)]) ==
      Bucket100(1400, [Sample(20.0, 1400), Sample(32.0, 1410)]);
  }

  /** The column of five slots that all hold a bucket, each bucket's statistic defined. */
  lemma ColumnOfFive(s: Slots, e: Extractor, b0: BucketView, b1: BucketView, b2: BucketView,
                     b3: BucketView, b4: BucketView, x0: real, x1: real, x2: real, x3: real, x4: real)
    requires s == [Some(b0), Some(b1), Some(b2), Some(b3), Some(b4)]
    requires Stat(b0, e) == Some(x0) && Stat(b1, e) == Some(x1) && Stat(b2, e) == Some(x2)
    requires Stat(b3, e) == Some(x3) && Stat(b4, e) == Some(x4)
    ensures SlotColumn(s, e) == Lift([x0, x1, x2, x3, x4])
  {
  }

  /** A column with every entry defined. */
  function Lift(xs: seq<real>): (c: seq<Option<real>>)
    ensures |c| == |xs| && forall i :: 0 <= i < |xs| ==> c[i] == Some(xs[i])
  {
    seq(|xs|, i requires 0 <= i < |xs| => Some(xs[i]))
  }

  lemma {:induction false} PresentLift(xs: seq<real>)
    ensures Present(Lift(xs)) == xs
    decreases |xs|
  {
    if |xs| > 0 {
      var prefix := xs[..|xs| - 1];
      assert Lift(xs)[..|xs| - 1] == Lift(prefix);
      PresentLift(prefix);
    }
  }

  lemma SumFive(a: real, b: real, c: real, d: real, e: real)
    ensures Sum([a, b, c, d, e]) == a + b + c + d + e
  {
    SumAppend([], a);
    assert [] + [a] == [a];
    SumAppend([a], b);
    assert [a] + [b] == [a, b];
    SumAppend([a, b], c);
    assert [a, b] + [c] == [a, b, c];
    SumAppend([a, b, c], d);
    assert [a, b, c] + [d] == [a, b, c, d];
    SumAppend([a, b, c, d], e);
    assert [a, b, c, d] + [e] == [a, b, c, d, e];
  }

  /** The slots after the "Series 1" calls, slot by slot. */
  lemma SlotsOne()
    ensures SlotsAfter6(22.0) == [Some(Bucket100(1000, [Sample(22.0, 1010), Sample(18.0, 1013)])),
                         Some(Bucket100(1100, [Sample(18.0, 1100), Sample(23.0, 1100)])),
                         Some(Bucket100(1200, [Sample(23.0, 1200), Sample(80.0, 1200), Sample(20.0, 1210)])),
                         Some(Seed(0, 100, Some(20.0))),
                         Some(Bucket100(1400, [Sample(20.0, 1400), Sample(32.0, 1410)]))]
  {
    assert Bucket100(0, [Sample(20.0, 0)]) == Seed(0, 100, Some(20.0));
  }

  /** The statistic e of the slots after the "Series 1" calls. */
  lemma SeriesOneColumn(s: Slots, e: Extractor, x0: real, x1: real, x2: real, x3: real, x4: real)
    requires s == SlotsAfter6(22.0)
    requires Stat(Bucket100(1000, [Sample(22.0, 1010), Sample(18.0, 1013)]), e) == Some(x0)
    requires Stat(Bucket100(1100, [Sample(18.0, 1100), Sample(23.0, 1100)]), e) == Some(x1)
    requires Stat(Bucket100(1200, [Sample(23.0, 1200), Sample(80.0, 1200), Sample(20.0, 1210)]), e) == Some(x2)
    requires Stat(Seed(0, 100, Some(20.0)), e) == Some(x3)
    requires Stat(Bucket100(1400, [Sample(20.0, 1400), Sample(32.0, 1410)]), e) == Some(x4)
    ensures SlotColumn(s, e) == Lift([x0, x1, x2, x3, x4])
  {
    SlotsOne();
    ColumnOfFive(s, e, Bucket100(1000, [Sample(22.0, 1010), Sample(18.0, 1013)]),
      Bucket100(1100, [Sample(18.0, 1100), Sample(23.0, 1100)]),
      Bucket100(1200, [Sample(23.0, 1200), Sample(80.0, 1200), Sample(20.0, 1210)]),
      Seed(0, 100, Some(20.0)), Bucket100(1400, [Sample(20.0, 1400), Sample(32.0, 1410)]), x0, x1, x2, x3, x4);
  }

  /** The columns of the slots after the "Series 1" calls. */
  lemma SeriesOneColumns(s: Slots)
    requires s == SlotsAfter6(22.0)
    ensures SlotColumn(s, AverageValue) == Lift([18.52, 23.0, 26.0, 20.0, 30.8])
    ensures SlotColumn(s, MaxValue) == Lift([22.0, 23.0, 80.0, 20.0, 32.0])
    ensures SlotColumn(s, MinValue) == Lift([18.0, 23.0, 20.0, 20.0, 20.0])
  {
    SlotTen();
    SlotEleven();
    SlotTwelve();
    SeedStats(0, 100, Some(20.0));
    SlotFourteen();
    SeriesOneColumn(s, AverageValue, 18.52, 23.0, 26.0, 20.0, 30.8);
    SeriesOneColumn(s, MaxValue, 22.0, 23.0, 80.0, 20.0, 32.0);
    SeriesOneColumn(s, MinValue, 18.0, 23.0, 20.0, 20.0, 20.0);
  }

  /** The mean of a column of five defined values. */
  lemma MeanOfFive(c: seq<Option<real>>, a: real, b: real, d: real, e: real, g: real)
    requires c == Lift([a, b, d, e, g])
    ensures MeanFold(c) == Some((a + b + d + e + g) / 5.0)
  {
    var xs := [a, b, d, e, g];
    PresentLift(xs);
    SumFive(a, b, d, e, g);
    assert Present(c) == xs && |xs| == 5;
    assert MeanFold(c) == Some(Sum(xs) / 5.0);
  }

  /** The extrema of a column whose every entry is defined are those of its values. */
  lemma LiftedExtrema(xs: seq<real>)
    requires |xs| > 0
    ensures ReduceUndefinedAware(Max, Lift(xs)) == Some(SeqMax(xs))
    ensures ReduceUndefinedAware(Min, Lift(xs)) == Some(SeqMin(xs))
  {
    PresentLift(xs);
    ReduceMax(Lift(xs));
    ReduceMin(Lift(xs));
  }

  lemma ExtremaOfFive(a: real, b: real, c: real, d: real, e: real)
    ensures SeqMax([a, b, c, d, e]) == Max(Max(Max(Max(a, b), c), d), e)
    ensures SeqMin([a, b, c, d, e]) == Min(Min(Min(Min(a, b), c), d), e)
  {
    assert [a] + [b] == [a, b];
    assert [a, b] + [c] == [a, b, c];
    assert [a, b, c] + [d] == [a, b, c, d];
    assert [a, b, c, d] + [e] == [a, b, c, d, e];
    SeqMaxAppend([a], b);
    SeqMaxAppend([a, b], c);
    SeqMaxAppend([a, b, c], d);
    SeqMaxAppend([a, b, c, d], e);
    SeqMinAppend([a], b);
    SeqMinAppend([a, b], c);
    SeqMinAppend([a, b, c], d);
    SeqMinAppend([a, b, c, d], e);
  }

  /** What the getters report on slots with the columns of the "Series 1" calls. */
  lemma SeriesOneStats(s: Slots)
    requires SlotColumn(s, AverageValue) == Lift([18.52, 23.0, 26.0, 20.0, 30.8])
    requires SlotColumn(s, MaxValue) == Lift([22.0, 23.0, 80.0, 20.0, 32.0])
    requires SlotColumn(s, MinValue) == Lift([18.0, 23.0, 20.0, 20.0, 20.0])
    ensures AverageOf(s) == Some(118.32 / 5.0)
    ensures MaxOfSlots(s) == Some(80.0) && MinOfSlots(s) == Some(18.0)
  {
    MeanOfFive(SlotColumn(s, AverageValue), 18.52, 23.0, 26.0, 20.0, 30.8);
    LiftedExtrema([22.0, 23.0, 80.0, 20.0, 32.0]);
    ExtremaOfFive(22.0, 23.0, 80.0, 20.0, 32.0);
    LiftedExtrema([18.0, 23.0, 20.0, 20.0, 20.0]);
    ExtremaOfFive(18.0, 23.0, 20.0, 20.0, 20.0);
  }

  /** The buffer test suite's "Series 1": the average is the mean of the five slots'
      time-weighted averages, the step skipped between the last two samples counting with
      the last value of the step before it; the extrema range over all slots. */
  lemma RingSeriesOne()
    ensures WindowInv(InitialSlots(5, 100, 1000), 5, 100, Step(1000, 100), 1000) && Ascending(1000, SeriesOne())
    ensures AverageOf(Replay(InitialSlots(5, 100, 1000), 5, 100, 1000, SeriesOne())) ==
      Some((13.0 * 22.0 + 87.0 * 18.0 + 100.0 * 23.0 + 10.0 * 80.0 + 200.0 * 20.0 + 90.0 * 32.0) / 500.0)
    ensures MaxOfSlots(Replay(InitialSlots(5, 100, 1000), 5, 100, 1000, SeriesOne())) == Some(80.0)
    ensures MinOfSlots(Replay(InitialSlots(5, 100, 1000), 5, 100, 1000, SeriesOne())) == Some(18.0)
  {
    RingSeriesOneSlots();
    var s := Replay(InitialSlots(5, 100, 1000), 5, 100, 1000, SeriesOne());
    SeriesOneColumns(s);
    SeriesOneStats(s);
  }

  lemma SlotFifteen()
    ensures MinOf(Bucket100(1500, [Sample(32.0, 1500), Sample(32.0, 1510)])) == Some(32.0)
  {
    var f := Fields(320.0, Some(32.0), 1510, Some(32.0), Some(32.0), 2);
    SeededRun(1500, 100, 32.0, [Sample(32.0, 1510)], f);
    assert Feed(Seed(1500, 100, Some(32.0)), [Sample(32.0, 1510)]) ==
      Bucket100(1500, [Sample(32.0, 1500), Sample(32.0, 1510)]);
  }

  /** The slots after the "Series 3" calls, slot by slot. */
  lemma SlotsThree()
    ensures SlotsAfter7(1.0) == [Some(Bucket100(1500, [Sample(32.0, 1500), Sample(32.0, 1510)])),
                        Some(Bucket100(1100, [Sample(18.0, 1100), Sample(23.0, 1100)])),
                        Some(Bucket100(1200, [Sample(23.0, 1200), Sample(80.0, 1200), Sample(20.0, 1210)])),
                        Some(Seed(0, 100, Some(20.0))),
                        Some(Bucket100(1400, [Sample(20.0, 1400), Sample(32.0, 1410)]))]
  {
    assert Bucket100(0, [Sample(20.0, 0)]) == Seed(0, 100, Some(20.0));
  }

  lemma SeriesThreeMinima(s: Slots)
    requires s == SlotsAfter7(1.0)
    ensures SlotColumn(s, MinValue) == Lift([32.0, 23.0, 20.0, 20.0, 20.0])
  {
    SlotFifteen();
    SlotEleven();
    SlotTwelve();
    SeedStats(0, 100, Some(20.0));
    SlotFourteen();
    SlotsThree();
    ColumnOfFive(s, MinValue, Bucket100(1500, [Sample(32.0, 1500), Sample(32.0, 1510)]),
      Bucket100(1100, [Sample(18.0, 1100), Sample(23.0, 1100)]),
      Bucket100(1200, [Sample(23.0, 1200), Sample(80.0, 1200), Sample(20.0, 1210)]),
      Seed(0, 100, Some(20.0)), Bucket100(1400, [Sample(20.0, 1400), Sample(32.0, 1410)]),
      32.0, 23.0, 20.0, 20.0, 20.0);
  }

  /** The buffer test suite's "Series 3": the move to step 15 reuses the slot of step 10,
      so its minimum 1 no longer counts and the minimum is that of the later slots. */
  lemma RingSeriesThree()
    ensures WindowInv(InitialSlots(5, 100, 1000), 5, 100, Step(1000, 100), 1000) && Ascending(1000, SeriesThree())
    ensures MinOfSlots(Replay(InitialSlots(5, 100, 1000), 5, 100, 1000, SeriesThree())) == Some(20.0)
  {
    RingSeriesThreeSlots();
    var s := Replay(InitialSlots(5, 100, 1000), 5, 100, 1000, SeriesThree());
    SeriesThreeMinima(s);
    LiftedExtrema([32.0, 23.0, 20.0, 20.0, 20.0]);
    ExtremaOfFive(32.0, 23.0, 20.0, 20.0, 20.0);
  }

  // The buffer's "Series 2": two pairs of calls share a timestamp within step 12.

  /** The slots after the first three calls, the bucket of step 12 holding s. */
  function At12(v: real, s: seq<Sample>): Slots { SlotsAfter3(v)[2 := Some(Bucket100(1200, s))] }

  /** The calls of "Series 2" after the first three. */
  function TailTwo(): seq<Sample> {
    [Sample(0.0, 1200), Sample(80.0, 1200), Sample(100.0, 1210), Sample(20.0, 1210), Sample(32.0, 1410)]
  }

  /** The bucket of step 12 at the end of "Series 2". */
  function TwelveTwo(): seq<Sample> {
    [Sample(23.0, 1200), Sample(0.0, 1200), Sample(80.0, 1200), Sample(100.0, 1210), Sample(20.0, 1210)]
  }

  /** The slots after the "Series 2" calls. */
  function SlotsAfterSeriesTwo(v: real): Slots {
    At12(v, TwelveTwo())[3 := Some(Bucket100(0, [Sample(20.0, 0)]))][4 := Some(Bucket100(1400, [Sample(20.0, 1400), Sample(32.0, 1410)]))]
  }

  /** The move into step 12 seeds its bucket with the last value of step 11. */
  lemma RingEnterTwelve(v: real, x: Sample)
    requires x.ts == 1200
    ensures Put(SlotsAfter3(v), 5, 100, 1100, x) == At12(v, [Sample(23.0, 1200), x])
  {
    assert Step(1100, 100) == 11 && Step(1200, 100) == 12;
    assert BucketIndex(11, 5) == 1 && BucketIndex(12, 5) == 2;
    assert Carry(SlotsAfter3(v), 5, 11) == Some(23.0);
    assert [Sample(23.0, 1200)] + [Sample(x.value, x.ts)] == [Sample(23.0, 1200), x];
  }

  /** A call within step 12 appends to its bucket and changes no other slot. */
  lemma RingWithinTwelve(v: real, s: seq<Sample>, ts: nat, x: Sample)
    requires 1200 <= ts <= x.ts < 1300
    ensures Put(At12(v, s), 5, 100, ts, x) == At12(v, s + [x])
  {
    assert Step(ts, 100) == 12 && Step(x.ts, 100) == 12 && BucketIndex(12, 5) == 2;
    assert Sample(x.value, x.ts) == x;
  }

  /** The move over step 13 fills its slot with the last value of step 12. */
  lemma RingLeaveTwelve(v: real)
    ensures Put(At12(v, TwelveTwo()), 5, 100, 1210, Sample(32.0, 1410)) == SlotsAfterSeriesTwo(v)
  {
    assert Step(1210, 100) == 12 && Step(1410, 100) == 14;
    assert BucketIndex(12, 5) == 2 && BucketIndex(14, 5) == 4;
    assert Carry(At12(v, TwelveTwo()), 5, 12) == Some(20.0);
    var gap := ClearGap(At12(v, TwelveTwo()), 5, 100, 12, 2, Some(20.0));
    assert !Skipped(0, 12, 2, 5) && !Skipped(1, 12, 2, 5) && !Skipped(2, 12, 2, 5);
    assert Skipped(3, 12, 2, 5) && !Skipped(4, 12, 2, 5);
    assert gap == At12(v, TwelveTwo())[3 := Some(Bucket100(0, [Sample(20.0, 0)]))];
    assert [Sample(20.0, 1400)] + [Sample(32.0, 1410)] == [Sample(20.0, 1400), Sample(32.0, 1410)];
  }

  lemma TailTwoAscending()
    ensures Ascending(1100, TailTwo())
  {
    var xs := TailTwo();
    assert xs[4..][1..] == [];
    assert xs[3..][1..] == xs[4..] && xs[2..][1..] == xs[3..] && xs[1..][1..] == xs[2..];
    assert Ascending(1210, xs[4..]);
    assert Ascending(1210, xs[3..]);
    assert Ascending(1200, xs[2..]);
    assert Ascending(1200, xs[1..]);
  }

  /** The calls of step 12 and the move to step 14. */
  lemma RingTailTwo(v: real)
    requires WindowInv(SlotsAfter3(v), 5, 100, Step(1100, 100), 1100)
    ensures Ascending(1100, TailTwo())
    ensures Replay(SlotsAfter3(v), 5, 100, 1100, TailTwo()) == SlotsAfterSeriesTwo(v)
  {
    TailTwoAscending();
    var xs := TailTwo();
    var s2, s3, s4 := [Sample(23.0, 1200), Sample(0.0, 1200)],
      [Sample(23.0, 1200), Sample(0.0, 1200), Sample(80.0, 1200)],
      [Sample(23.0, 1200), Sample(0.0, 1200), Sample(80.0, 1200), Sample(100.0, 1210)];
    assert s2 + [Sample(80.0, 1200)] == s3 && s3 + [Sample(100.0, 1210)] == s4;
    assert s4 + [Sample(20.0, 1210)] == TwelveTwo();
    assert xs[1..][1..] == xs[2..] && xs[2..][1..] == xs[3..] && xs[3..][1..] == xs[4..];
    assert xs[4..][1..] == [];
    RingUnfold(SlotsAfter3(v), 5, 100, 1100, xs);
    RingEnterTwelve(v, Sample(0.0, 1200));
    RingUnfold(At12(v, s2), 5, 100, 1200, xs[1..]);
    RingWithinTwelve(v, s2, 1200, Sample(80.0, 1200));
    RingUnfold(At12(v, s3), 5, 100, 1200, xs[2..]);
    RingWithinTwelve(v, s3, 1200, Sample(100.0, 1210));
    RingUnfold(At12(v, s4), 5, 100, 1210, xs[3..]);
    RingWithinTwelve(v, s4, 1210, Sample(20.0, 1210));
    RingUnfold(At12(v, TwelveTwo()), 5, 100, 1210, xs[4..]);
    RingLeaveTwelve(v);
  }

  /** The slots after the "Series 2" calls. */
  lemma RingSeriesTwoSlots()
    ensures WindowInv(InitialSlots(5, 100, 1000), 5, 100, Step(1000, 100), 1000)
    ensures Ascending(1000, SeriesTwo())
    ensures Replay(InitialSlots(5, 100, 1000), 5, 100, 1000, SeriesTwo()) == SlotsAfterSeriesTwo(22.0)
  {
    TailTwoAscending();
    assert SeriesTwo() == FirstThree(22.0) + TailTwo();
    RingFirstThree(22.0, TailTwo());
    RingTailTwo(22.0);
  }

  /** The bucket of step 12: the calls at its start replace the seed in the extrema, so its
      minimum is 0 although the value 0 held for no time at all. */
  lemma SlotTwelveTwo()
    ensures Average(Bucket100(1200, TwelveTwo())) == Some(26.0)
    ensures MaxOf(Bucket100(1200, TwelveTwo())) == Some(100.0)
    ensures MinOf(Bucket100(1200, TwelveTwo())) == Some(0.0)
  {
    var xs := [Sample(0.0, 1200), Sample(80.0, 1200), Sample(100.0, 1210), Sample(20.0, 1210)];
    var f := Fields(800.0, Some(20.0), 1210, Some(100.0), Some(0.0), 5);
    assert Run(SeedFields(1200, 23.0), 1200, xs) == f;
    SeededRun(1200, 100, 23.0, xs, f);
    assert Feed(Seed(1200, 100, Some(23.0)), xs) == Bucket100(1200, TwelveTwo());
  }

  /** The slots after the "Series 2" calls, slot by slot. */
  lemma SlotsTwo()
    ensures SlotsAfterSeriesTwo(22.0) == [Some(Bucket100(1000, [Sample(22.0, 1010), Sample(18.0, 1013)])),
                         Some(Bucket100(1100, [Sample(18.0, 1100), Sample(23.0, 1100)])),
                         Some(Bucket100(1200, TwelveTwo())),
                         Some(Seed(0, 100, Some(20.0))),
                         Some(Bucket100(1400, [Sample(20.0, 1400), Sample(32.0, 1410)]))]
  {
    assert Bucket100(0, [Sample(20.0, 0)]) == Seed(0, 100, Some(20.0));
  }

  /** The buckets of the slots after the "Series 2" calls, and the statistic e of each. */
  lemma SeriesTwoColumn(s: Slots, e: Extractor, x0: real, x1: real, x2: real, x3: real, x4: real)
    requires s == SlotsAfterSeriesTwo(22.0)
    requires Stat(Bucket100(1000, [Sample(22.0, 1010), Sample(18.0, 1013)]), e) == Some(x0)
    requires Stat(Bucket100(1100, [Sample(18.0, 1100), Sample(23.0, 1100)]), e) == Some(x1)
    requires Stat(Bucket100(1200, TwelveTwo()), e) == Some(x2)
    requires Stat(Seed(0, 100, Some(20.0)), e) == Some(x3)
    requires Stat(Bucket100(1400, [Sample(20.0, 1400), Sample(32.0, 1410)]), e) == Some(x4)
    ensures SlotColumn(s, e) == Lift([x0, x1, x2, x3, x4])
  {
    SlotsTwo();
    ColumnOfFive(s, e, Bucket100(1000, [Sample(22.0, 1010), Sample(18.0, 1013)]),
      Bucket100(1100, [Sample(18.0, 1100), Sample(23.0, 1100)]), Bucket100(1200, TwelveTwo()),
      Seed(0, 100, Some(20.0)), Bucket100(1400, [Sample(20.0, 1400), Sample(32.0, 1410)]), x0, x1, x2, x3, x4);
  }

  /** The columns of the slots after the "Series 2" calls. */
  lemma SeriesTwoColumns(s: Slots)
    requires s == SlotsAfterSeriesTwo(22.0)
    ensures SlotColumn(s, AverageValue) == Lift([18.52, 23.0, 26.0, 20.0, 30.8])
    ensures SlotColumn(s, MaxValue) == Lift([22.0, 23.0, 100.0, 20.0, 32.0])
    ensures SlotColumn(s, MinValue) == Lift([18.0, 23.0, 0.0, 20.0, 20.0])
  {
    SlotTen();
    SlotEleven();
    SlotTwelveTwo();
    SeedStats(0, 100, Some(20.0));
    SlotFourteen();
    SeriesTwoColumn(s, AverageValue, 18.52, 23.0, 26.0, 20.0, 30.8);
    SeriesTwoColumn(s, MaxValue, 22.0, 23.0, 100.0, 20.0, 32.0);
    SeriesTwoColumn(s, MinValue, 18.0, 23.0, 0.0, 20.0, 20.0);
  }

  /** The buffer test suite's "Series 2": the same moving average as "Series 1", while the
      overridden values 0 and 100 still count for the extrema. */
  lemma RingSeriesTwo()
    ensures WindowInv(InitialSlots(5, 100, 1000), 5, 100, Step(1000, 100), 1000) && Ascending(1000, SeriesTwo())
    ensures AverageOf(Replay(InitialSlots(5, 100, 1000), 5, 100, 1000, SeriesTwo())) ==
      Some((13.0 * 22.0 + 87.0 * 18.0 + 100.0 * 23.0 + 10.0 * 80.0 + 200.0 * 20.0 + 90.0 * 32.0) / 500.0)
    ensures MaxOfSlots(Replay(InitialSlots(5, 100, 1000), 5, 100, 1000, SeriesTwo())) == Some(100.0)
    ensures MinOfSlots(Replay(InitialSlots(5, 100, 1000), 5, 100, 1000, SeriesTwo())) == Some(0.0)
  {
    RingSeriesTwoSlots();
    var s := Replay(InitialSlots(5, 100, 1000), 5, 100, 1000, SeriesTwo());
    SeriesTwoColumns(s);
    MeanOfFive(SlotColumn(s, AverageValue), 18.52, 23.0, 26.0, 20.0, 30.8);
    LiftedExtrema([22.0, 23.0, 100.0, 20.0, 32.0]);
    ExtremaOfFive(22.0, 23.0, 100.0, 20.0, 32.0);
    LiftedExtrema([18.0, 23.0, 0.0, 20.0, 20.0]);
    ExtremaOfFive(18.0, 23.0, 0.0, 20.0, 20.0);
  }
}
