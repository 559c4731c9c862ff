/** Value types shared by the bucket and the circular buffer: optional results (the
    source's `undefined`), the outcome of an insertion, positive durations, and the
    real-valued aggregates (maximum, minimum, sum) that the getters are specified by. */
module Stats {

  /** A getter's result: `None` is the source's `undefined`, distinct from zero. */
  datatype Option<+T> = None | Some(value: T)

  /** What an `addValue` call did: it appended the sample, or it raised one of the two
      errors of the source (timestamp outside the bucket, timestamp going back in time). */
  datatype Outcome = Ok | OutOfRange | BackInTime

  /** Durations, step sizes and ring sizes are positive. */
  type Pos = x: int | x > 0 witness 1

  /** `Math.max` and `Math.min` on two numbers. */
  function Max(a: real, b: real): real { if a >= b then a else b }
  function Min(a: real, b: real): real { if a <= b then a else b }

  function SeqMax(xs: seq<real>): (m: real)
    requires |xs| > 0
    ensures m in xs
    ensures forall x :: x in xs ==> x <= m
    decreases |xs|
  {
    if |xs| == 1 then xs[0]
    else
      var prefix := xs[..|xs| - 1];
      assert xs == prefix + [xs[|xs| - 1]];
      Max(SeqMax(prefix), xs[|xs| - 1])
  }

  function SeqMin(xs: seq<real>): (m: real)
    requires |xs| > 0
    ensures m in xs
    ensures forall x :: x in xs ==> m <= x
    decreases |xs|
  {
    if |xs| == 1 then xs[0]
    else
      var prefix := xs[..|xs| - 1];
      assert xs == prefix + [xs[|xs| - 1]];
      Min(SeqMin(prefix), xs[|xs| - 1])
  }

  lemma SeqMaxAppend(xs: seq<real>, x: real)
    requires |xs| > 0
    ensures SeqMax(xs + [x]) == Max(SeqMax(xs), x)
  {
    assert (xs + [x])[..|xs|] == xs;
  }

  lemma SeqMinAppend(xs: seq<real>, x: real)
    requires |xs| > 0
    ensures SeqMin(xs + [x]) == Min(SeqMin(xs), x)
  {
    assert (xs + [x])[..|xs|] == xs;
  }

  /** The defined values of a sequence of optional values, in order. */
  function Present(xs: seq<Option<real>>): seq<real>
    decreases |xs|
  {
    if |xs| == 0 then []
    else
      var rest := Present(xs[..|xs| - 1]);
      match xs[|xs| - 1]
      case None => rest
      case Some(x) => rest + [x]
  }

  function Sum(xs: seq<real>): real
    decreases |xs|
  {
    if |xs| == 0 then 0.0 else Sum(xs[..|xs| - 1]) + xs[|xs| - 1]
  }

  lemma SumAppend(xs: seq<real>, x: real)
    ensures Sum(xs + [x]) == Sum(xs) + x
  {
    assert (xs + [x])[..|xs|] == xs;
  }

  /** No value is present exactly when every entry is `None`. */
  lemma {:induction false} PresentEmpty(xs: seq<Option<real>>)
    ensures |Present(xs)| == 0 <==> forall i :: 0 <= i < |xs| ==> xs[i] == None
    decreases |xs|
  {
    if |xs| > 0 {
      var prefix := xs[..|xs| - 1];
      PresentEmpty(prefix);
      assert forall i :: 0 <= i < |prefix| ==> prefix[i] == xs[i];
    }
  }

  /** Every present value is one of the entries. */
  lemma {:induction false} PresentFrom(xs: seq<Option<real>>)
    ensures forall y :: y in Present(xs) ==> Some(y) in xs
    decreases |xs|
  {
    if |xs| > 0 {
      var prefix := xs[..|xs| - 1];
      PresentFrom(prefix);
      assert forall o :: o in prefix ==> o in xs;
    }
  }

  /** A sum of equal values is that value times their number. */
  lemma {:induction false} SumConstant(xs: seq<real>, v: real)
    requires forall x :: x in xs ==> x == v
    ensures Sum(xs) == |xs| as real * v
    decreases |xs|
  {
    if |xs| > 0 {
      var prefix := xs[..|xs| - 1];
      assert forall x :: x in prefix ==> x in xs;
      SumConstant(prefix, v);
      assert xs[|xs| - 1] in xs;
      assert |xs| as real * v == |prefix| as real * v + v;
    }
  }

  /** When every entry is defined, all of them are present. */
  lemma {:induction false} PresentAll(xs: seq<Option<real>>)
    requires forall i :: 0 <= i < |xs| ==> xs[i].Some?
    ensures |Present(xs)| == |xs|
    decreases |xs|
  {
    if |xs| > 0 {
      var prefix := xs[..|xs| - 1];
      assert forall i :: 0 <= i < |prefix| ==> prefix[i] == xs[i];
      PresentAll(prefix);
      assert xs[|xs| - 1].Some?;
    }
  }
}
