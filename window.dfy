/** The rolling window of the circular buffer, on values: which slot a timestamp falls in,
    what a move to a later timestamp does to the slots, and the folds the aggregate getters
    compute over them. Steps and timestamps are non-negative integers (epoch milliseconds). */
module Window {
  import opened Stats
  import opened Buckets

  /** The ring's slots, in index order; `None` is an empty (undefined) slot. */
  type Slots = seq<Option<BucketView>>

  // ---------------------------------------------------------------------------------
  // Steps and slot indices.

  /** The step a timestamp falls in: the interval [step * size, step * size + size). */
  function Step(ts: nat, size: Pos): (step: nat)
    ensures step * size <= ts < step * size + size
  {
    ts / size
  }

  /** The slot of a step: the step modulo the number of slots. */
  function BucketIndex(step: nat, n: Pos): (i: nat)
    ensures i < n && (step - i) % n == 0
  {
    var i := step % n;
    assert step - i == (step / n) * n + 0;
    ModUnique(step - i, n, step / n, 0);
    i
  }

  /** A later timestamp never lies in an earlier step. */
  lemma StepMonotone(ts: nat, ts': nat, size: Pos)
    requires ts <= ts'
    ensures Step(ts, size) <= Step(ts', size)
  {
    var s, s' := Step(ts, size), Step(ts', size);
    if s' < s {
      MulMonotone(s' + 1, s, size);
    }
  }

  lemma MulMonotone(a: int, b: int, c: Pos)
    requires a <= b
    ensures a * c <= b * c
  {
  }

  // ---------------------------------------------------------------------------------
  // Residues: the slot a step falls in, as an offset from the current step's slot.

  /** Division with remainder is unique. */
  lemma ModUnique(y: int, n: Pos, q: int, r: int)
    requires y == q * n + r && 0 <= r < n
    ensures y % n == r && y / n == q
  {
    var d := q - y / n;
    assert y == (y / n) * n + y % n;
    assert d * n == y % n - r by {
      assert q * n - (y / n) * n == (q - y / n) * n;
    }
    if d >= 1 {
      MulMonotone(1, d, n);
    } else if d <= -1 {
      MulMonotone(d, -1, n);
    }
  }

  lemma ModShift(x: int, q: int, n: Pos)
    ensures (x + q * n) % n == x % n
  {
    var r := x % n;
    assert x == (x / n) * n + r;
    assert x + q * n == (x / n + q) * n + r by {
      assert (x / n) * n + q * n == (x / n + q) * n;
    }
    ModUnique(x + q * n, n, x / n + q, r);
  }

  /** The offset of step i's slot from step cur's slot is the residue of i - cur. */
  lemma SlotOffset(i: int, cur: int, n: Pos)
    ensures (i % n - cur) % n == (i - cur) % n
  {
    assert i % n - cur == (i - cur) + (-(i / n)) * n;
    ModShift(i - cur, -(i / n), n);
  }

  /** A slot is recovered from its offset from any step. */
  lemma SlotFromOffset(k: int, cur: int, n: Pos)
    requires 0 <= k < n
    ensures (cur + (k - cur) % n) % n == k
  {
    var o := (k - cur) % n;
    var q := (k - cur) / n;
    assert k - cur == q * n + o;
    assert cur + o == k + (-q) * n;
    ModShift(k, -q, n);
    ModUnique(k, n, 0, k);
  }

  // ---------------------------------------------------------------------------------
  // The fast paths of the step and index computations, as written.

  /** A JavaScript number converted to a signed 32-bit integer (the operand of `>>` and `&`). */
  function ToInt32(x: int): (r: int)
    ensures -0x8000_0000 <= r < 0x8000_0000
    ensures (x - r) % 0x1_0000_0000 == 0
  {
    var m := x % 0x1_0000_0000;
    if m >= 0x8000_0000 then m - 0x1_0000_0000 else m
  }

  /** `timestamp >> 10`: an arithmetic shift of the 32-bit conversion, that is, its floor
      division by 1024. */
  function ShiftStep(ts: nat): (step: int)
    ensures -0x20_0000 <= step < 0x20_0000
  {
    ToInt32(ts) / 1024
  }

  /** calcStepFromTimestamp as written: the shift for a step of 1024, division otherwise. */
  function StepAsWritten(ts: nat, size: Pos): (step: int)
    ensures size != 1024 || ts < 0x8000_0000 ==> step == Step(ts, size)
  {
    if size == 1024 then ShiftStep(ts) else Step(ts, size)
  }

  /** `step & 63`: the low six bits of the 32-bit two's complement form of the step, which
      are that number's non-negative remainder modulo 64. */
  function MaskIndex(step: int): (i: int)
    ensures 0 <= i < 64
  {
    ToInt32(step) % 64
  }

  /** calcBucketIndexFromStep as written: the mask for 64 slots, the remainder otherwise. */
  function CalcBucketIndex(step: nat, n: Pos): (i: nat)
    ensures i == BucketIndex(step, n)
  {
    if n == 64 then
      MaskIndexAgrees(step);
      MaskIndex(step)
    else step % n
  }

  /** The mask agrees with the remainder for every step: 2^32 is a multiple of 64, so the
      32-bit conversion keeps the low six bits. */
  lemma MaskIndexAgrees(step: int)
    ensures MaskIndex(step) == step % 64
  {
    var r := ToInt32(step);
    var q := (step - r) / 0x1_0000_0000;
    assert step - r == q * 0x1_0000_0000 + 0 by {
      ModUnique(step - r, 0x1_0000_0000, (step - r) / 0x1_0000_0000, 0);
    }
    assert step == r + (q * 0x400_0000) * 64;
    ModShift(r, q * 0x400_0000, 64);
  }

  /** The shift agrees with the division while the timestamp fits in 31 bits. */
  lemma ShiftStepAgrees(ts: nat)
    requires ts < 0x8000_0000
    ensures ShiftStep(ts) == Step(ts, 1024)
  {
  }

  /** A timestamp of 2023 (1_700_000_000_000 ms) is mapped by the shift to a negative step,
      so the bucket the move installs for it begins far before it and rejects it. */
  lemma ShiftStepWraps()
    ensures ShiftStep(1_700_000_000_000) == -788134
    ensures Step(1_700_000_000_000, 1024) == 1660156250
    ensures Admit(Seed(StepAsWritten(1_700_000_000_000, 1024) * 1024, 1024, None), 1_700_000_000_000) == OutOfRange
  {
    assert 1_700_000_000_000 % 0x1_0000_0000 == 3487918080;
  }

  // ---------------------------------------------------------------------------------
  // Moving the window.

  /** The last value of the current bucket, which a move carries into the new buckets. */
  function Carry(slots: Slots, n: Pos, cur: nat): (r: Option<real>)
    requires |slots| == n
    ensures var c := slots[BucketIndex(cur, n)]; r.Some? <==> c.Some? && |c.value.samples| > 0
    ensures r.Some? ==> var s := slots[BucketIndex(cur, n)].value.samples; r.value == s[|s| - 1].value
  {
    match slots[BucketIndex(cur, n)]
    case None => None
    case Some(b) => LastOf(b)
  }

  /** What a skipped step's slot holds: nothing without a carried value, otherwise a bucket
      holding only that value (its interval is immaterial; nothing is added to it). */
  function Filler(size: Pos, carry: Option<real>): (r: Option<BucketView>)
    ensures r.None? <==> carry.None?
    ensures r.Some? ==> |r.value.samples| == 1 && LastOf(r.value) == carry && r.value.duration == size
    ensures r.Some? ==> Average(r.value) == carry && MinOf(r.value) == carry && MaxOf(r.value) == carry
  {
    SeedStats(0, size, carry);
    if carry.None? then None else Some(Seed(0, size, carry))
  }

  /** A slot whose offset from the current step's slot lies strictly between 0 and the
      number of steps moved belongs to a skipped step. */
  predicate Skipped(k: int, cur: int, moved: int, n: Pos) {
    0 < (k - cur) % n < moved
  }

  /** One more step of the gap loop skips exactly one more slot: that of step i. */
  lemma SkippedStep(k: int, cur: int, i: int, n: Pos)
    requires 0 <= k < n && cur < i < cur + n
    ensures Skipped(k, cur, i + 1 - cur, n) <==> Skipped(k, cur, i - cur, n) || k == i % n
  {
    SlotOffset(i, cur, n);
    ModUnique(i - cur, n, 0, i - cur);
    if (k - cur) % n == i - cur {
      SlotFromOffset(k, cur, n);
    }
  }

  /** The slots of the skipped steps cleared, or filled with the carried value. */
  function ClearGap(slots: Slots, n: Pos, size: Pos, cur: nat, moved: nat, carry: Option<real>): (r: Slots)
    requires |slots| == n
    ensures |r| == n
    ensures moved <= n ==> forall i: int :: cur < i < cur + moved ==> r[i % n] == Filler(size, carry)
    ensures moved <= n ==> forall i: int :: cur + moved - n <= i <= cur ==> r[i % n] == slots[i % n]
  {
    var r := seq(n, k requires 0 <= k < n => if Skipped(k, cur, moved, n) then Filler(size, carry) else slots[k]);
    GapBySteps(slots, r, n, size, cur, moved, carry);
    r
  }

  /** The slot-wise description of the gap, restated by steps. */
  lemma GapBySteps(slots: Slots, r: Slots, n: Pos, size: Pos, cur: nat, moved: nat, carry: Option<real>)
    requires |slots| == n && |r| == n
    requires forall k :: 0 <= k < n ==> r[k] == if Skipped(k, cur, moved, n) then Filler(size, carry) else slots[k]
    ensures moved <= n ==> forall i: int :: cur < i < cur + moved ==> r[i % n] == Filler(size, carry)
    ensures moved <= n ==> forall i: int :: cur + moved - n <= i <= cur ==> r[i % n] == slots[i % n]
  {
    if moved <= n {
      forall i: int | cur < i < cur + moved
        ensures r[i % n] == Filler(size, carry)
      {
        SlotOffset(i, cur, n);
        ModUnique(i - cur, n, 0, i - cur);
      }
      forall i: int | cur + moved - n <= i <= cur
        ensures r[i % n] == slots[i % n]
      {
        SlotOffset(i, cur, n);
        if i == cur {
          ModUnique(0, n, 0, 0);
        } else {
          ModShift(i - cur, 1, n);
          ModUnique(i - cur + n, n, 0, i - cur + n);
        }
      }
    }
  }

  /** The slots after moving from step cur to a later step next, before the new step's
      bucket is installed: one step clears nothing, a partial move clears (or fills) the
      skipped steps' slots, a move of a whole window or more clears (or fills) every slot. */
  function Kept(slots: Slots, n: Pos, size: Pos, cur: nat, next: nat, carry: Option<real>): (r: Slots)
    requires |slots| == n && cur < next
    ensures |r| == n
    ensures next - cur < n ==> forall i: int :: cur < i < next ==> r[i % n] == Filler(size, carry)
    ensures next - cur < n ==> forall i: int :: next - n <= i <= cur ==> r[i % n] == slots[i % n]
    ensures next - cur == 1 ==> r == slots
    ensures 1 < next - cur && n <= next - cur ==> forall k :: 0 <= k < n ==> r[k] == Filler(size, carry)
  {
    var moved := next - cur;
    if moved == 1 then slots
    else if moved >= n then seq(n, k => Filler(size, carry))
    else ClearGap(slots, n, size, cur, moved, carry)
  }

  /** The slots after moving from step cur to a later step next, before the sample is added:
      the kept slots, and the new step's slot holding a bucket for its interval seeded with
      the carried value. */
  function Advance(slots: Slots, n: Pos, size: Pos, cur: nat, next: nat): (r: Slots)
    requires |slots| == n && cur < next
    ensures |r| == n
    ensures var b := r[BucketIndex(next, n)];
      b.Some? && b.value.start == next * size && b.value.duration == size &&
      |b.value.samples| <= 1 && LastOf(b.value) == Carry(slots, n, cur)
  {
    var carry := Carry(slots, n, cur);
    Kept(slots, n, size, cur, next, carry)[BucketIndex(next, n) := Some(Seed(next * size, size, carry))]
  }

  /** moveToTimestamp on the slots: nothing happens within the current step. */
  function Move(slots: Slots, n: Pos, size: Pos, cur: nat, next: nat): (r: Slots)
    requires |slots| == n && cur <= next
    ensures |r| == n
    ensures next == cur ==> r == slots
    ensures next > cur ==> r[BucketIndex(next, n)] == Some(Seed(next * size, size, Carry(slots, n, cur)))
  {
    if next == cur then slots else Advance(slots, n, size, cur, next)
  }

  /** The current bucket accepts a sample. */
  function Insert(slots: Slots, n: Pos, step: nat, v: real, ts: int): (r: Slots)
    requires |slots| == n && slots[BucketIndex(step, n)].Some?
    ensures |r| == n
    ensures forall k :: 0 <= k < n && k != BucketIndex(step, n) ==> r[k] == slots[k]
    ensures var b, b' := slots[BucketIndex(step, n)].value, r[BucketIndex(step, n)];
      b'.Some? && b'.value.start == b.start && b'.value.duration == b.duration &&
      b'.value.samples == b.samples + [Sample(v, ts)]
  {
    var i := BucketIndex(step, n);
    slots[i := Some(Record(slots[i].value, v, ts))]
  }

  /** The slots of a fresh buffer: an empty bucket for the start timestamp's step. */
  function InitialSlots(n: Pos, size: Pos, ts: nat): (r: Slots)
    ensures |r| == n
    ensures forall k :: 0 <= k < n ==> (r[k].Some? <==> k == BucketIndex(Step(ts, size), n))
    ensures var b := r[BucketIndex(Step(ts, size), n)].value;
      |b.samples| == 0 && b.start <= ts < b.start + b.duration && b.duration == size
  {
    var step := Step(ts, size);
    var r := seq(n, k => if k == BucketIndex(step, n) then Some(Seed(step * size, size, None)) else None);
    assert r[BucketIndex(step, n)] == Some(Seed(step * size, size, None));
    r
  }

  /** The window invariant: the current step is that of the last timestamp, and its slot
      holds a well-formed bucket for exactly that step's interval whose samples are no later
      than the last timestamp. */
  ghost predicate WindowInv(slots: Slots, n: Pos, size: Pos, step: nat, ts: nat) {
    |slots| == n && step == Step(ts, size) &&
    var cur := slots[BucketIndex(step, n)];
    cur.Some? && cur.value.start == step * size && cur.value.duration == size &&
    WellFormed(cur.value) && LastTs(cur.value) <= ts
  }

  /** A fresh buffer satisfies the window invariant. */
  lemma InitialInv(n: Pos, size: Pos, ts: nat)
    ensures WindowInv(InitialSlots(n, size, ts), n, size, Step(ts, size), ts)
  {
    var step := Step(ts, size);
    SeedStats(step * size, size, None);
  }

  /** Moving to any timestamp no earlier than the last one keeps the window invariant. */
  lemma MoveKeepsInv(slots: Slots, n: Pos, size: Pos, ts: nat, ts': nat)
    requires WindowInv(slots, n, size, Step(ts, size), ts) && ts <= ts'
    ensures Step(ts, size) <= Step(ts', size)
    ensures WindowInv(Move(slots, n, size, Step(ts, size), Step(ts', size)), n, size, Step(ts', size), ts')
  {
    StepMonotone(ts, ts', size);
    var cur, next := Step(ts, size), Step(ts', size);
    if next != cur {
      var carry := Carry(slots, n, cur);
      SeedStats(next * size, size, carry);
    }
  }

  /** The current bucket always admits a sample at the last timestamp: the inner addValue
      of the buffer never fails. */
  lemma CurrentAdmits(slots: Slots, n: Pos, size: Pos, step: nat, ts: nat)
    requires WindowInv(slots, n, size, step, ts)
    ensures Admit(slots[BucketIndex(step, n)].value, ts) == Ok
  {
  }

  /** Adding the sample at the last timestamp keeps the window invariant. */
  lemma InsertKeepsInv(slots: Slots, n: Pos, size: Pos, step: nat, v: real, ts: nat)
    requires WindowInv(slots, n, size, step, ts)
    ensures WindowInv(Insert(slots, n, step, v, ts), n, size, step, ts)
  {
    RecordWellFormed(slots[BucketIndex(step, n)].value, v, ts);
  }

  /** A move by fewer steps than there are slots, stated by steps: every skipped step's slot
      is cleared or filled with the carried value, the slot of every step still in the window
      is untouched, and the new step's slot holds a bucket for its interval seeded with the
      carried value. For a move of one step there are no skipped steps. */
  lemma AdvanceWithinWindow(slots: Slots, n: Pos, size: Pos, cur: nat, next: nat)
    requires |slots| == n && cur < next < cur + n
    ensures forall i: int :: cur < i < next ==>
      Advance(slots, n, size, cur, next)[i % n] == Filler(size, Carry(slots, n, cur))
    ensures forall i: int :: next - n < i <= cur ==>
      Advance(slots, n, size, cur, next)[i % n] == slots[i % n]
    ensures Advance(slots, n, size, cur, next)[BucketIndex(next, n)] ==
      Some(Seed(next * size, size, Carry(slots, n, cur)))
  {
    var r, moved := Advance(slots, n, size, cur, next), next - cur;
    forall i: int | cur < i < next
      ensures r[i % n] == Filler(size, Carry(slots, n, cur))
    {
      SlotOffset(i, cur, n);
      ModUnique(i - cur, n, 0, i - cur);
      SlotOffset(next, cur, n);
      ModUnique(moved, n, 0, moved);
    }
    forall i: int | next - n < i <= cur
      ensures r[i % n] == slots[i % n]
    {
      SlotOffset(i, cur, n);
      if i == cur {
        ModUnique(0, n, 0, 0);
      } else {
        ModShift(i - cur, 1, n);
        ModUnique(i - cur + n, n, 0, i - cur + n);
      }
      SlotOffset(next, cur, n);
      ModUnique(moved, n, 0, moved);
    }
  }

  /** A move by a whole window or more: every slot but the new step's is cleared or filled
      with the carried value, and the new step's slot holds the seeded bucket. */
  lemma AdvanceFullWrap(slots: Slots, n: Pos, size: Pos, cur: nat, next: nat)
    requires |slots| == n && next >= cur + n
    ensures forall k :: 0 <= k < n && k != BucketIndex(next, n) ==>
      Advance(slots, n, size, cur, next)[k] == Filler(size, Carry(slots, n, cur))
    ensures Advance(slots, n, size, cur, next)[BucketIndex(next, n)] ==
      Some(Seed(next * size, size, Carry(slots, n, cur)))
  {
  }

  // ---------------------------------------------------------------------------------
  // The aggregate folds.

  /** reduceUndefinedAware: a left fold over the slots' values that skips undefined ones and
      starts from the first defined one. */
  function ReduceUndefinedAware(agg: (real, real) -> real, xs: seq<Option<real>>): (r: Option<real>)
    ensures r == None <==> forall i :: 0 <= i < |xs| ==> xs[i] == None
    decreases |xs|
  {
    if |xs| == 0 then None
    else
      var prefix := xs[..|xs| - 1];
      assert forall i :: 0 <= i < |prefix| ==> prefix[i] == xs[i];
      var prev := ReduceUndefinedAware(agg, prefix);
      match xs[|xs| - 1]
      case None => prev
      case Some(x) => if prev.None? then Some(x) else Some(agg(prev.value, x))
  }

  function Add(a: real, b: real): real { a + b }

  lemma {:induction false} ReduceMax(xs: seq<Option<real>>)
    ensures ReduceUndefinedAware(Max, xs) ==
      if |Present(xs)| == 0 then None else Some(SeqMax(Present(xs)))
    decreases |xs|
  {
    if |xs| > 0 {
      var prefix := xs[..|xs| - 1];
      ReduceMax(prefix);
      if xs[|xs| - 1].Some? && |Present(prefix)| > 0 {
        SeqMaxAppend(Present(prefix), xs[|xs| - 1].value);
      }
    }
  }

  lemma {:induction false} ReduceMin(xs: seq<Option<real>>)
    ensures ReduceUndefinedAware(Min, xs) ==
      if |Present(xs)| == 0 then None else Some(SeqMin(Present(xs)))
    decreases |xs|
  {
    if |xs| > 0 {
      var prefix := xs[..|xs| - 1];
      ReduceMin(prefix);
      if xs[|xs| - 1].Some? && |Present(prefix)| > 0 {
        SeqMinAppend(Present(prefix), xs[|xs| - 1].value);
      }
    }
  }

  lemma {:induction false} ReduceSum(xs: seq<Option<real>>)
    ensures ReduceUndefinedAware(Add, xs) ==
      if |Present(xs)| == 0 then None else Some(Sum(Present(xs)))
    decreases |xs|
  {
    if |xs| > 0 {
      var prefix := xs[..|xs| - 1];
      ReduceSum(prefix);
      match xs[|xs| - 1]
      case None =>
      case Some(x) =>
        SumAppend(Present(prefix), x);
        assert Sum([x]) == x by {
          SumAppend([], x);
        }
    }
  }

  /** The accumulator of getAverage. */
  datatype Tally = Tally(sum: real, count: nat)

  /** getAverage's fold: the sum and the number of the defined values. */
  function SumAndCount(xs: seq<Option<real>>): (t: Tally)
    ensures t.sum == Sum(Present(xs)) && t.count == |Present(xs)|
    decreases |xs|
  {
    if |xs| == 0 then Tally(0.0, 0)
    else
      var t := SumAndCount(xs[..|xs| - 1]);
      match xs[|xs| - 1]
      case None => t
      case Some(x) => Tally(t.sum + x, t.count + 1)
  }

  /** getAverage: the arithmetic mean of the defined values, undefined when there are none. */
  function MeanFold(xs: seq<Option<real>>): (r: Option<real>)
    ensures r == if |Present(xs)| == 0 then None else Some(Sum(Present(xs)) / |Present(xs)| as real)
  {
    var t := SumAndCount(xs);
    if t.count > 0 then Some(t.sum / t.count as real) else None
  }

  // ---------------------------------------------------------------------------------
  // The slots' statistics.

  /** A slot's statistic; the getters skip empty slots. */
  ghost function SlotStat(slot: Option<BucketView>, e: Extractor): Option<real> {
    match slot
    case None => None
    case Some(b) => Stat(b, e)
  }

  /** The statistic of every slot, in index order: what the folds run over. */
  ghost function SlotColumn(slots: Slots, e: Extractor): (c: seq<Option<real>>)
    ensures |c| == |slots|
  {
    seq(|slots|, i requires 0 <= i < |slots| => SlotStat(slots[i], e))
  }

  /** The aggregates of the buffer, as its getters compute them from the slots. */
  ghost function AverageOf(slots: Slots): Option<real> { MeanFold(SlotColumn(slots, AverageValue)) }
  ghost function MinOfSlots(slots: Slots): Option<real> { ReduceUndefinedAware(Min, SlotColumn(slots, MinValue)) }
  ghost function MaxOfSlots(slots: Slots): Option<real> { ReduceUndefinedAware(Max, SlotColumn(slots, MaxValue)) }
  ghost function CountOf(slots: Slots): Option<real> { ReduceUndefinedAware(Add, SlotColumn(slots, NumValues)) }

  /** A buffer whose only bucket is empty has no average, minimum or maximum and counts zero
      values: the state right after construction, and after a move of a whole window or more
      with no value to carry. */
  lemma LoneEmptyBucket(slots: Slots, k: nat)
    requires k < |slots| && slots[k].Some? && |slots[k].value.samples| == 0
    requires forall j :: 0 <= j < |slots| && j != k ==> slots[j] == None
    ensures AverageOf(slots) == None && MinOfSlots(slots) == None && MaxOfSlots(slots) == None
    ensures CountOf(slots) == Some(0.0)
  {
    var counts := SlotColumn(slots, NumValues);
    forall e: Extractor, j | 0 <= j < |slots| && e != NumValues ensures SlotColumn(slots, e)[j] == None {
    }
    PresentEmpty(SlotColumn(slots, AverageValue));
    PresentEmpty(counts);
    assert forall j :: 0 <= j < |counts| ==> counts[j] == if j == k then Some(0.0) else None;
    forall y | y in Present(counts) ensures y == 0.0 {
      PresentFrom(counts);
    }
    SumConstant(Present(counts), 0.0);
    ReduceSum(counts);
    assert counts[k] != None;
    assert |Present(counts)| > 0;
    assert Sum(Present(counts)) == 0.0;
    assert ReduceUndefinedAware(Add, counts) == Some(0.0);
  }

  /** The constructor's slots: nothing to aggregate, and a count of zero. */
  lemma InitialAggregates(n: Pos, size: Pos, ts: nat)
    ensures AverageOf(InitialSlots(n, size, ts)) == None
    ensures MinOfSlots(InitialSlots(n, size, ts)) == None && MaxOfSlots(InitialSlots(n, size, ts)) == None
    ensures CountOf(InitialSlots(n, size, ts)) == Some(0.0)
  {
    var step := Step(ts, size);
    var slots, k := InitialSlots(n, size, ts), BucketIndex(step, n);
    assert slots[k] == Some(Seed(step * size, size, None));
    LoneEmptyBucket(slots, k);
  }

  /** After a move of a whole window or more, every slot reports the carried value, so the
      moving average, minimum and maximum are exactly that value over all slots; with nothing
      to carry, the buffer reports nothing and counts zero. */
  lemma FullWrapAggregates(slots: Slots, n: Pos, size: Pos, cur: nat, next: nat)
    requires |slots| == n && next >= cur + n
    ensures Carry(slots, n, cur).Some? ==>
      var v := Carry(slots, n, cur);
      var r := Advance(slots, n, size, cur, next);
      AverageOf(r) == v && MinOfSlots(r) == v && MaxOfSlots(r) == v && CountOf(r) == Some(n as real)
    ensures Carry(slots, n, cur).None? ==>
      var r := Advance(slots, n, size, cur, next);
      AverageOf(r) == None && MinOfSlots(r) == None && MaxOfSlots(r) == None && CountOf(r) == Some(0.0)
  {
    var carry, r := Carry(slots, n, cur), Advance(slots, n, size, cur, next);
    var idx := BucketIndex(next, n);
    SeedStats(next * size, size, carry);
    if carry.None? {
      LoneEmptyBucket(r, idx);
    } else {
      forall j | 0 <= j < n
        ensures r[j].Some? && r[j].value == Seed(r[j].value.start, r[j].value.duration, carry)
      {
      }
      Uniform(r, carry.value);
    }
  }

  /** Every slot holds a bucket seeded with the same value v. */
  ghost predicate AllSeededWith(slots: Slots, v: real) {
    forall j :: 0 <= j < |slots| ==>
      slots[j].Some? && slots[j].value == Seed(slots[j].value.start, slots[j].value.duration, Some(v))
  }

  /** Slots that all hold a bucket seeded with v average, minimise and maximise to v, and
      count one value each. */
  lemma Uniform(slots: Slots, v: real)
    requires |slots| > 0 && AllSeededWith(slots, v)
    ensures AverageOf(slots) == Some(v) && MinOfSlots(slots) == Some(v) && MaxOfSlots(slots) == Some(v)
    ensures CountOf(slots) == Some(|slots| as real)
  {
    forall e: Extractor, j | 0 <= j < |slots|
      ensures SlotColumn(slots, e)[j] == if e == NumValues then Some(1.0) else Some(v)
    {
      SeededStat(slots[j].value, v, e);
    }
    Constant(SlotColumn(slots, AverageValue), v);
    Constant(SlotColumn(slots, MinValue), v);
    Constant(SlotColumn(slots, MaxValue), v);
    CountOnes(SlotColumn(slots, NumValues));
  }

  /** The mean, minimum and maximum of a non-empty column whose every entry is v are v. */
  lemma Constant(xs: seq<Option<real>>, v: real)
    requires |xs| > 0 && forall j :: 0 <= j < |xs| ==> xs[j] == Some(v)
    ensures MeanFold(xs) == Some(v)
    ensures ReduceUndefinedAware(Min, xs) == Some(v) && ReduceUndefinedAware(Max, xs) == Some(v)
  {
    PresentAll(xs);
    PresentFrom(xs);
    ReduceMin(xs);
    ReduceMax(xs);
    ConstantMean(Present(xs), v);
  }

  lemma ConstantMean(p: seq<real>, v: real)
    requires |p| > 0 && forall y :: y in p ==> y == v
    ensures Sum(p) / |p| as real == v
  {
    SumConstant(p, v);
    MeanOfEqual(Sum(p), |p| as real, v);
  }

  /** A column of ones sums to its length. */
  lemma CountOnes(xs: seq<Option<real>>)
    requires |xs| > 0 && forall j :: 0 <= j < |xs| ==> xs[j] == Some(1.0)
    ensures ReduceUndefinedAware(Add, xs) == Some(|xs| as real)
  {
    PresentAll(xs);
    PresentFrom(xs);
    ReduceSum(xs);
    SumConstant(Present(xs), 1.0);
  }

  /** A bucket seeded with v and given nothing else reports v and a count of one. */
  lemma SeededStat(b: BucketView, v: real, e: Extractor)
    requires b == Seed(b.start, b.duration, Some(v))
    ensures Stat(b, e) == if e == NumValues then Some(1.0) else Some(v)
  {
    SeedStats(b.start, b.duration, Some(v));
  }

  lemma MeanOfEqual(total: real, d: real, v: real)
    requires d > 0.0 && total == d * v
    ensures total / d == v
  {
  }
}
