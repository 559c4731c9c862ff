/** The circular buffer of buckets: a fixed ring of optional buckets, one per step of
    stepSizeMillis milliseconds, of which the last numBuckets steps are kept. The current
    bucket is the one in the slot of the current step. */
module CircularBuffer {
  import opened Stats
  import opened Buckets
  import opened Window

  /** The abstract content of one slot of the array. */
  ghost function ViewOf(b: Bucket?): Option<BucketView>
    reads b
  {
    if b == null then None else Some(b.View())
  }

  /** What the getters' callbacks read from one slot: nothing from an empty slot, otherwise
      the bucket's own getter for that statistic. */
  function SlotValue(b: Bucket?, e: Extractor): (r: Option<real>)
    requires b != null ==> b.Valid()
    reads b
    ensures r == SlotStat(ViewOf(b), e)
  {
    if b == null then None
    else
      match e
      case AverageValue => b.GetAverage()
      case MinValue => b.GetMinValue()
      case MaxValue => b.GetMaxValue()
      case NumValues => Some(b.GetNumValues() as real)
  }

  class BucketedCircularBuffer {
    const stepSizeMillis: Pos
    const numBuckets: Pos
    var currentTimestamp: nat
    var currentStep: nat
    var currentBucketIndex: nat
    var buckets: array<Bucket?>
    /** The content of every slot. */
    ghost var Ring: Slots
    ghost var Repr: set<object>

    /** The array has one slot per kept step, each empty or holding a valid bucket, and the
        ghost ring is its content. */
    ghost predicate Coupled()
      reads this, Repr
    {
      this in Repr && buckets in Repr &&
      buckets.Length == numBuckets && |Ring| == numBuckets &&
      forall k :: 0 <= k < numBuckets ==>
        if buckets[k] == null then Ring[k] == None
        else buckets[k] in Repr && buckets[k].Valid() && Ring[k] == Some(buckets[k].View())
    }

    ghost predicate Valid()
      reads this, Repr
    {
      Coupled() &&
      currentStep == Step(currentTimestamp, stepSizeMillis) &&
      currentBucketIndex == BucketIndex(currentStep, numBuckets) &&
      WindowInv(Ring, numBuckets, stepSizeMillis, currentStep, currentTimestamp) &&
      forall k :: 0 <= k < numBuckets && k != currentBucketIndex ==> buckets[k] != buckets[currentBucketIndex]
    }

    /** The constructor's first move: the start timestamp's step gets an empty bucket. */
    constructor (stepSizeMillis: Pos, numBuckets: Pos, startTimestamp: nat)
      ensures Valid() && fresh(Repr)
      ensures currentTimestamp == startTimestamp
      ensures Ring == InitialSlots(numBuckets, stepSizeMillis, startTimestamp)
      ensures GetNumValues() == Some(0.0) && GetAverage() == None
      ensures GetMinValue() == None && GetMaxValue() == None && GetLastValue() == None
    {
      this.stepSizeMillis := stepSizeMillis;
      this.numBuckets := numBuckets;
      var step := Step(startTimestamp, stepSizeMillis);
      var index := CalcBucketIndex(step, numBuckets);
      var current := new Bucket(step * stepSizeMillis, stepSizeMillis, None);
      var a := new Bucket?[numBuckets](_ => null);
      a[index] := current;
      buckets := a;
      currentTimestamp := startTimestamp;
      currentStep := step;
      currentBucketIndex := index;
      Ring := InitialSlots(numBuckets, stepSizeMillis, startTimestamp);
      Repr := {this, a, current};
      new;
      InitialInv(numBuckets, stepSizeMillis, startTimestamp);
      InitialAggregates(numBuckets, stepSizeMillis, startTimestamp);
    }

    /** moveToTimestamp: refuses to go back in time; otherwise advances the window to the
        timestamp's step. */
    method MoveToTimestamp(timestamp: nat) returns (r: Outcome)
      requires Valid()
      modifies this, buckets
      ensures Valid() && fresh(Repr - old(Repr))
      ensures r != OutOfRange
      ensures r == BackInTime <==> timestamp < old(currentTimestamp)
      ensures r == BackInTime ==> unchanged(this) && unchanged(buckets)
      ensures r == Ok ==> currentTimestamp == timestamp && currentStep == Step(timestamp, stepSizeMillis)
      ensures r == Ok ==> old(currentStep) <= currentStep
      ensures r == Ok ==> Ring == Move(old(Ring), numBuckets, stepSizeMillis, old(currentStep), currentStep)
    {
      if timestamp < currentTimestamp {
        return BackInTime;
      }
      ghost var before, previous := Ring, currentTimestamp;
      MoveKeepsInv(before, numBuckets, stepSizeMillis, previous, timestamp);
      currentTimestamp := timestamp;
      var bucketStep := Step(timestamp, stepSizeMillis);
      var stepsMoved := bucketStep - currentStep;
      if stepsMoved == 0 {
        return Ok;
      }
      AdvanceTo(bucketStep);
      return Ok;
    }

    /** The move to a later step: the current bucket's last value is carried into the
        skipped slots (for a move of more than one step) and into the new current bucket. */
    method AdvanceTo(bucketStep: nat)
      requires Coupled() && currentStep < bucketStep
      requires currentBucketIndex == BucketIndex(currentStep, numBuckets) && buckets[currentBucketIndex] != null
      modifies this, buckets
      ensures Coupled() && fresh(Repr - old(Repr))
      ensures currentTimestamp == old(currentTimestamp)
      ensures currentStep == bucketStep && currentBucketIndex == BucketIndex(bucketStep, numBuckets)
      ensures Ring == Advance(old(Ring), numBuckets, stepSizeMillis, old(currentStep), bucketStep)
      ensures forall k :: 0 <= k < numBuckets && k != currentBucketIndex ==> buckets[k] != buckets[currentBucketIndex]
    {
      var stepsMoved := bucketStep - currentStep;
      var lastValue := buckets[currentBucketIndex].GetLastValue();
      if stepsMoved == 1 {
        InstallCurrent(bucketStep, lastValue);
      } else {
        ClearSkipped(bucketStep, lastValue);
        InstallCurrent(bucketStep, lastValue);
      }
    }

    /** The slots of the steps skipped by a move of more than one step are cleared, or filled
        with buckets of the carried value. */
    method ClearSkipped(next: nat, lastValue: Option<real>)
      requires Coupled() && currentStep + 1 < next
      modifies this, buckets
      ensures Coupled() && fresh(Repr - old(Repr))
      ensures buckets == old(buckets) || fresh(buckets)
      ensures currentTimestamp == old(currentTimestamp) && currentStep == old(currentStep)
      ensures Ring == Kept(old(Ring), numBuckets, stepSizeMillis, currentStep, next, lastValue)
    {
      var stepsMoved := next - currentStep;
      if stepsMoved >= numBuckets {
        if lastValue.Some? {
          FillAll(lastValue.value);
        } else {
          Wipe();
        }
      } else {
        FillGap(currentStep, next, lastValue);
      }
    }

    /** Every slot gets a bucket holding only the value v. */
    method FillAll(v: real)
      requires Coupled()
      modifies this, buckets
      ensures Coupled() && fresh(Repr - old(Repr)) && buckets == old(buckets)
      ensures currentTimestamp == old(currentTimestamp) && currentStep == old(currentStep)
      ensures Ring == seq(numBuckets, k => Filler(stepSizeMillis, Some(v)))
    {
      for i := 0 to numBuckets
        invariant Coupled() && fresh(Repr - old(Repr)) && buckets == old(buckets)
        invariant currentTimestamp == old(currentTimestamp) && currentStep == old(currentStep)
        invariant forall k :: 0 <= k < i ==> Ring[k] == Filler(stepSizeMillis, Some(v))
      {
        var filler := new Bucket(0, stepSizeMillis, Some(v));
        buckets[i] := filler;
        Repr := Repr + {filler};
        Ring := Ring[i := Some(filler.View())];
      }
    }

    /** The array is replaced by an empty one. */
    method Wipe()
      requires Coupled()
      modifies this
      ensures Coupled() && fresh(Repr - old(Repr)) && fresh(buckets)
      ensures currentTimestamp == old(currentTimestamp) && currentStep == old(currentStep)
      ensures Ring == seq(numBuckets, k => None)
    {
      buckets := new Bucket?[numBuckets](_ => null);
      Repr := Repr + {buckets};
      Ring := seq(numBuckets, k => None);
    }

    /** The slots of the steps strictly between cur and next are cleared, or get a bucket
        holding only the carried value. */
    method FillGap(cur: nat, next: nat, lastValue: Option<real>)
      requires Coupled() && cur < next < cur + numBuckets
      modifies this, buckets
      ensures Coupled() && fresh(Repr - old(Repr)) && buckets == old(buckets)
      ensures currentTimestamp == old(currentTimestamp) && currentStep == old(currentStep)
      ensures Ring == ClearGap(old(Ring), numBuckets, stepSizeMillis, cur, next - cur, lastValue)
    {
      for i := cur + 1 to next
        invariant Coupled() && fresh(Repr - old(Repr)) && buckets == old(buckets)
        invariant currentTimestamp == old(currentTimestamp) && currentStep == old(currentStep)
        invariant forall k :: 0 <= k < numBuckets ==>
          Ring[k] == if Skipped(k, cur, i - cur, numBuckets) then Filler(stepSizeMillis, lastValue) else old(Ring)[k]
      {
        var index := i % numBuckets;
        if lastValue.None? {
          buckets[index] := null;
          Ring := Ring[index := None];
        } else {
          var filler := new Bucket(0, stepSizeMillis, lastValue);
          buckets[index] := filler;
          Repr := Repr + {filler};
          Ring := Ring[index := Some(filler.View())];
        }
        forall k | 0 <= k < numBuckets
          ensures Ring[k] == if Skipped(k, cur, i + 1 - cur, numBuckets) then Filler(stepSizeMillis, lastValue) else old(Ring)[k]
        {
          SkippedStep(k, cur, i, numBuckets);
        }
      }
    }

    /** The step becomes the current one, with a new bucket for its interval seeded with the
        carried value. */
    method InstallCurrent(step: nat, lastValue: Option<real>)
      requires Coupled()
      modifies this, buckets
      ensures Coupled() && fresh(Repr - old(Repr)) && buckets == old(buckets)
      ensures currentTimestamp == old(currentTimestamp)
      ensures currentStep == step && currentBucketIndex == BucketIndex(step, numBuckets)
      ensures Ring == old(Ring)[BucketIndex(step, numBuckets) := Some(Seed(step * stepSizeMillis, stepSizeMillis, lastValue))]
      ensures forall k :: 0 <= k < numBuckets && k != currentBucketIndex ==> buckets[k] != buckets[currentBucketIndex]
    {
      currentStep := step;
      currentBucketIndex := CalcBucketIndex(currentStep, numBuckets);
      var current := new Bucket(step * stepSizeMillis, stepSizeMillis, lastValue);
      buckets[currentBucketIndex] := current;
      Repr := Repr + {current};
      Ring := Ring[currentBucketIndex := Some(current.View())];
    }

    /** addValue: moves to the timestamp, then adds the sample to the current bucket, which
        always accepts it. */
    method AddValue(value: real, timestamp: nat) returns (r: Outcome)
      requires Valid()
      modifies Repr
      ensures Valid() && fresh(Repr - old(Repr))
      ensures r != OutOfRange
      ensures r == BackInTime <==> timestamp < old(currentTimestamp)
      ensures r == BackInTime ==> Ring == old(Ring) && currentTimestamp == old(currentTimestamp) && currentStep == old(currentStep)
      ensures r == Ok ==> currentTimestamp == timestamp && old(currentStep) <= currentStep == Step(timestamp, stepSizeMillis)
      ensures r == Ok ==> Ring == Insert(Move(old(Ring), numBuckets, stepSizeMillis, old(currentStep), currentStep),
                                         numBuckets, currentStep, value, timestamp)
      ensures r == Ok ==> GetLastValue() == Some(value)
    {
      r := MoveToTimestamp(timestamp);
      if r != Ok {
        return;
      }
      AddToCurrent(value, timestamp);
    }

    /** The current bucket's addValue, which the window invariant guarantees to succeed. */
    method AddToCurrent(value: real, timestamp: nat)
      requires Valid() && timestamp == currentTimestamp
      modifies Repr
      ensures Valid() && Repr == old(Repr)
      ensures currentTimestamp == old(currentTimestamp) && currentStep == old(currentStep)
      ensures Ring == Insert(old(Ring), numBuckets, currentStep, value, timestamp)
      ensures GetLastValue() == Some(value)
    {
      ghost var moved := Ring;
      var current := buckets[currentBucketIndex];
      CurrentAdmits(moved, numBuckets, stepSizeMillis, currentStep, currentTimestamp);
      InsertKeepsInv(moved, numBuckets, stepSizeMillis, currentStep, value, timestamp);
      var outcome := current.AddValue(value, timestamp);
      Ring := Ring[currentBucketIndex := Some(current.View())];
    }

    /** The statistic of the first hi slots, read through the buckets' getters. */
    function Extract(e: Extractor, hi: nat): (c: seq<Option<real>>)
      requires Coupled() && hi <= numBuckets
      reads Repr
      ensures |c| == hi && forall k :: 0 <= k < hi ==> c[k] == SlotStat(Ring[k], e)
      decreases hi
    {
      if hi == 0 then []
      else Extract(e, hi - 1) + [SlotValue(buckets[hi - 1], e)]
    }

    function Column(e: Extractor): (c: seq<Option<real>>)
      requires Coupled()
      reads Repr
      ensures c == Window.SlotColumn(Ring, e)
    {
      Extract(e, numBuckets)
    }

    /** getAverage: the mean of the slots' averages, over the slots that have one. */
    function GetAverage(): (r: Option<real>)
      requires Valid()
      reads Repr
      ensures r == AverageOf(Ring)
      ensures var avg := Present(Window.SlotColumn(Ring, AverageValue));
        r == if |avg| == 0 then None else Some(Sum(avg) / |avg| as real)
    {
      MeanFold(Column(AverageValue))
    }

    /** getMinValue: the least of the slots' minima, over the slots that have one. */
    function GetMinValue(): (r: Option<real>)
      requires Valid()
      reads Repr
      ensures r == MinOfSlots(Ring)
      ensures var mins := Present(Window.SlotColumn(Ring, MinValue));
        r == if |mins| == 0 then None else Some(SeqMin(mins))
    {
      ReduceMin(Window.SlotColumn(Ring, MinValue));
      ReduceUndefinedAware(Min, Column(MinValue))
    }

    /** getMaxValue: the greatest of the slots' maxima, over the slots that have one. */
    function GetMaxValue(): (r: Option<real>)
      requires Valid()
      reads Repr
      ensures r == MaxOfSlots(Ring)
      ensures var maxs := Present(Window.SlotColumn(Ring, MaxValue));
        r == if |maxs| == 0 then None else Some(SeqMax(maxs))
    {
      ReduceMax(Window.SlotColumn(Ring, MaxValue));
      ReduceUndefinedAware(Max, Column(MaxValue))
    }

    /** getNumValues: the number of samples in the kept buckets; the current slot always
        holds a bucket, so it is always defined. */
    function GetNumValues(): (r: Option<real>)
      requires Valid()
      reads Repr
      ensures r == CountOf(Ring)
      ensures r == Some(Sum(Present(Window.SlotColumn(Ring, NumValues))))
    {
      var counts := Window.SlotColumn(Ring, NumValues);
      assert counts[currentBucketIndex] != None;
      PresentEmpty(counts);
      ReduceSum(counts);
      ReduceUndefinedAware(Add, Column(NumValues))
    }

    /** getLastValue: the current bucket's last value. */
    function GetLastValue(): (r: Option<real>)
      requires Valid()
      reads Repr
      ensures r == LastOf(Ring[BucketIndex(currentStep, numBuckets)].value)
    {
      buckets[currentBucketIndex].GetLastValue()
    }
  }
}
