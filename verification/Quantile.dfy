/** Histogram quantiles over merged buckets: Quantile of internal/promtext/parse.go. */
module Quantile {
  import opened Telemetry
  import opened Reals
  import opened PromText
  import opened Sorting

  datatype Bucket = Bucket(le: Float, count: real)

  /** The order of bucket boundaries. */
  predicate Less(a: Float, b: Float) {
    match (a, b)
    case (Finite(x), Finite(y)) => x < y
    case (NegInf, Finite(_)) => true
    case (NegInf, PosInf) => true
    case (Finite(_), PosInf) => true
    case _ => false
  }

  predicate Increasing(bs: seq<Bucket>) {
    forall i, j :: 0 <= i < j < |bs| ==> Less(bs[i].le, bs[j].le)
  }

  /** Interpolation needs boundaries that are numbers, or the open-ended bucket. */
  predicate Arithmetical(bs: seq<Bucket>) {
    forall i :: 0 <= i < |bs| ==> bs[i].le.Finite? || bs[i].le.PosInf?
  }

  predicate NonDecreasing(bs: seq<Bucket>) {
    forall i, j :: 0 <= i <= j < |bs| ==> bs[i].count <= bs[j].count
  }

  /** What merging and clamping establish. */
  predicate Cumulative(bs: seq<Bucket>) {
    Increasing(bs) && Arithmetical(bs) && NonDecreasing(bs)
  }

  function LargestFinite(bs: seq<Bucket>): Option<real>
    requires Arithmetical(bs)
  {
    if bs == [] then None
    else
      var last := bs[|bs| - 1];
      if last.le.Finite? then Some(last.le.r) else LargestFinite(bs[..|bs| - 1])
  }

  /** The lower edge of bucket idx, and the count below it. */
  function LowerEdge(bs: seq<Bucket>, idx: nat): real
    requires Arithmetical(bs) && idx < |bs|
  {
    if idx > 0 && bs[idx - 1].le.Finite? then bs[idx - 1].le.r else 0.0
  }

  function CountBelow(bs: seq<Bucket>, idx: nat): real
    requires idx < |bs|
  {
    if idx > 0 then bs[idx - 1].count else 0.0
  }

  /** The point a fraction x / span of the way from lower to upper. */
  function Along(lower: real, upper: real, x: real, span: real): real
    requires span != 0.0
  {
    lower + Times(upper - lower, x / span)
  }

  function Rank(q: real, total: real): real {
    Times(q, total)
  }

  /** The answer for a rank that falls in bucket idx. */
  function Interpolate(bs: seq<Bucket>, idx: nat, rank: real): Option<real>
    requires Arithmetical(bs) && idx < |bs|
  {
    if bs[idx].le.PosInf? then LargestFinite(bs)
    else
      var upper := bs[idx].le.r;
      var lower := LowerEdge(bs, idx);
      var span := bs[idx].count - CountBelow(bs, idx);
      if span <= 0.0 then Some(upper)
      else Some(Along(lower, upper, rank - CountBelow(bs, idx), span))
  }

  function ReachedAt(bs: seq<Bucket>, rank: real): nat -> bool {
    (i: nat) => i < |bs| && bs[i].count >= rank
  }

  /** The bucket the program's binary search lands in, with its guard. */
  function Landing(bs: seq<Bucket>, rank: real): (idx: nat)
    requires bs != []
    ensures idx < |bs|
  {
    var idx := Search(|bs|, ReachedAt(bs, rank));
    if idx == |bs| then |bs| - 1 else idx
  }

  /** The estimate for 0 < q < 1 over the merged buckets of a family. */
  function Estimate(bs: seq<Bucket>, q: real): Option<real>
    requires Arithmetical(bs)
  {
    if q <= 0.0 || q >= 1.0 || bs == [] then None
    else
      var total := bs[|bs| - 1].count;
      if total <= 0.0 then None else EstimateAt(bs, Rank(q, total))
  }

  function EstimateAt(bs: seq<Bucket>, rank: real): Option<real>
    requires Arithmetical(bs) && bs != []
  {
    Interpolate(bs, Landing(bs, rank), rank)
  }

  // ---------------------------------------------------------------------------
  // The search and its guards
  // ---------------------------------------------------------------------------

  lemma RankIsInside(q: real, total: real)
    requires 0.0 < q < 1.0 && total > 0.0
    ensures 0.0 < Rank(q, total) < total
  {
    TimesIsNonNegative(q, total);
    TimesIsNonNegative(1.0 - q, total);
    assert Rank(1.0 - q, total) == total - Rank(q, total);
  }

  /** A rank some bucket reaches. */
  predicate RankOk(bs: seq<Bucket>, rank: real) {
    bs != [] && 0.0 < rank <= bs[|bs| - 1].count
  }

  /**
    On clamped buckets the binary search agrees with a linear scan, and neither of the
    two guards after it can trigger: the search finds a bucket, and its span is positive.
    */
  lemma SearchAgreesWithScan(bs: seq<Bucket>, rank: real)
    requires NonDecreasing(bs) && RankOk(bs, rank)
    ensures
      var idx := Search(|bs|, ReachedAt(bs, rank));
      && idx < |bs|
      && Landing(bs, rank) == idx
      && (forall i :: 0 <= i < idx ==> bs[i].count < rank)
      && CountBelow(bs, idx) < rank <= bs[idx].count
  {
  }

  // ---------------------------------------------------------------------------
  // Range, definedness, monotonicity
  // ---------------------------------------------------------------------------

  lemma AlongIsBetween(lower: real, upper: real, x: real, span: real)
    requires lower <= upper && 0.0 < x <= span
    ensures lower <= Along(lower, upper, x, span) <= upper
    ensures lower < upper ==> lower < Along(lower, upper, x, span)
  {
    FractionOrder(0.0, x, span);
    FractionOrder(x, span, span);
    TimesOrder(upper - lower, 0.0, x / span);
    TimesOrder(upper - lower, x / span, 1.0);
  }

  lemma AlongIsMonotone(lower: real, upper: real, span: real, x1: real, x2: real)
    requires lower <= upper && span > 0.0 && x1 <= x2
    ensures Along(lower, upper, x1, span) <= Along(lower, upper, x2, span)
  {
    FractionOrder(x1, x2, span);
    TimesOrder(upper - lower, x1 / span, x2 / span);
  }

  lemma AlongFalls(lower: real, upper: real, span: real, x1: real, x2: real)
    requires upper < lower && span > 0.0 && x1 < x2
    ensures Along(lower, upper, x1, span) > Along(lower, upper, x2, span)
  {
    FractionOrder(x1, x2, span);
    TimesOrder(upper - lower, x1 / span, x2 / span);
  }

  lemma LargestFiniteIs(bs: seq<Bucket>)
    requires Increasing(bs) && Arithmetical(bs) && bs != []
    ensures LargestFinite(bs).Some? <==> bs[0].le.Finite?
    ensures forall i :: 0 <= i < |bs| - 1 ==> bs[i].le.Finite?
    ensures forall i :: 0 <= i < |bs| && bs[i].le.Finite? && bs[0].le.Finite? ==>
      bs[i].le.r <= LargestFinite(bs).value
    ensures LargestFinite(bs).Some? ==>
      exists i :: 0 <= i < |bs| && bs[i].le == Finite(LargestFinite(bs).value)
  {
  }

  /** Nothing in the buckets can turn the interpolation around: see MonotoneExactlyWhen. */
  predicate StartsForward(bs: seq<Bucket>) {
    bs == [] || !bs[0].le.Finite? || bs[0].le.r >= 0.0 || bs[0].count <= 0.0
  }

  /**
    A finite answer lies between the edges of the bucket the rank fell in, unless that is a
    first bucket with a negative boundary: then it lies between that boundary and zero.
    Above the last boundary nothing is invented.
    */
  lemma EstimateIsInItsBucket(bs: seq<Bucket>, rank: real)
    requires Cumulative(bs) && RankOk(bs, rank) && bs[0].le.Finite?
    ensures EstimateAt(bs, rank).Some?
    ensures
      var idx, v := Landing(bs, rank), EstimateAt(bs, rank).value;
      && (bs[idx].le.PosInf? ==> Some(v) == LargestFinite(bs))
      && (bs[idx].le.Finite? ==>
            (LowerEdge(bs, idx) <= v <= bs[idx].le.r <==> StartsForward(bs) || rank > bs[0].count))
      && (!StartsForward(bs) && rank <= bs[0].count ==> bs[0].le.r <= v < 0.0)
  {
    var idx := Landing(bs, rank);
    SearchAgreesWithScan(bs, rank);
    LargestFiniteIs(bs);
    if !StartsForward(bs) && rank <= bs[0].count {
      AlongBackwards(bs[0].le.r, rank, bs[0].count);
      FallsInFirstBucket(bs, rank);
      assert idx == 0 && LowerEdge(bs, idx) == 0.0;
    } else if bs[idx].le.Finite? {
      InsideBucket(bs, idx, rank);
    }
  }

  lemma AlongBackwards(upper: real, x: real, span: real)
    requires upper < 0.0 < x <= span
    ensures upper <= Along(0.0, upper, x, span) < 0.0
  {
    FractionOrder(0.0, x, span);
    FractionOrder(x, span, span);
    TimesOrder(upper, 0.0, x / span);
    if x < span {
      TimesOrder(upper, x / span, 1.0);
    }
  }

  lemma InsideBucket(bs: seq<Bucket>, idx: nat, rank: real)
    requires Increasing(bs) && Arithmetical(bs) && idx < |bs| && bs[idx].le.Finite?
    requires idx > 0 || bs[0].le.r >= 0.0 || bs[0].count <= 0.0
    requires CountBelow(bs, idx) < rank <= bs[idx].count
    ensures LowerEdge(bs, idx) <= bs[idx].le.r
    ensures Interpolate(bs, idx, rank).Some?
    ensures LowerEdge(bs, idx) <= Interpolate(bs, idx, rank).value <= bs[idx].le.r
    ensures LowerEdge(bs, idx) < bs[idx].le.r ==> LowerEdge(bs, idx) < Interpolate(bs, idx, rank).value
  {
    assert idx > 0 ==> Less(bs[idx - 1].le, bs[idx].le);
    var below := CountBelow(bs, idx);
    AlongIsBetween(LowerEdge(bs, idx), bs[idx].le.r, rank - below, bs[idx].count - below);
  }

  // ---------------------------------------------------------------------------
  // How far into a bucket the answer goes
  // ---------------------------------------------------------------------------

  /** The rank falls in bucket i, which is finite: the counts before it do not reach the rank. */
  predicate FallsIn(bs: seq<Bucket>, i: nat, rank: real) {
    i < |bs| && bs[i].le.Finite? && rank <= bs[i].count &&
    (if i == 0 then 0.0 < rank else bs[i - 1].le.Finite? && bs[i - 1].count < rank)
  }

  /**
    The answer is as far from the lower edge of the bucket, in proportion to its width, as
    the rank is from the count below, in proportion to what the bucket itself holds.
    */
  predicate InProportionAt(bs: seq<Bucket>, i: nat, rank: real, v: real)
    requires FallsIn(bs, i, rank)
  {
    if i == 0 then Divides(0.0, bs[0].le.r, bs[0].count, rank, v)
    else Divides(bs[i - 1].le.r, bs[i].le.r, bs[i].count - bs[i - 1].count, rank - bs[i - 1].count, v)
  }

  /** v is as far from lower towards upper as x is of span. */
  predicate Divides(lower: real, upper: real, span: real, x: real, v: real) {
    (v - lower) * span == (upper - lower) * x
  }

  ghost predicate InProportion(bs: seq<Bucket>, rank: real, v: real) {
    forall i: nat :: FallsIn(bs, i, rank) ==> InProportionAt(bs, i, rank, v)
  }

  lemma AlongIsProportional(lower: real, upper: real, x: real, span: real)
    requires span > 0.0
    ensures Divides(lower, upper, span, x, Along(lower, upper, x, span))
  {
    FractionBack(upper - lower, x, span);
  }

  lemma EstimateIsInProportionAt(bs: seq<Bucket>, rank: real, i: nat)
    requires Cumulative(bs) && RankOk(bs, rank) && FallsIn(bs, i, rank)
    ensures EstimateAt(bs, rank).Some? && InProportionAt(bs, i, rank, EstimateAt(bs, rank).value)
  {
    if i == 0 {
      FallsInFirstBucket(bs, rank);
      AlongIsProportional(0.0, bs[0].le.r, rank, bs[0].count);
    } else {
      LandsWhere(bs, rank, i);
      AlongIsProportional(bs[i - 1].le.r, bs[i].le.r, rank - bs[i - 1].count, bs[i].count - bs[i - 1].count);
    }
  }

  lemma LandsWhere(bs: seq<Bucket>, rank: real, i: nat)
    requires Cumulative(bs) && RankOk(bs, rank) && 0 < i && FallsIn(bs, i, rank)
    ensures EstimateAt(bs, rank) ==
            Some(Along(bs[i - 1].le.r, bs[i].le.r, rank - bs[i - 1].count, bs[i].count - bs[i - 1].count))
  {
    SearchAgreesWithScan(bs, rank);
    assert Landing(bs, rank) == i;
  }

  /** In whatever bucket the rank falls, the estimate divides it in proportion. */
  lemma EstimateIsInProportion(bs: seq<Bucket>, rank: real)
    requires Cumulative(bs) && RankOk(bs, rank) && EstimateAt(bs, rank).Some?
    ensures InProportion(bs, rank, EstimateAt(bs, rank).value)
  {
    forall i: nat | FallsIn(bs, i, rank)
      ensures InProportionAt(bs, i, rank, EstimateAt(bs, rank).value)
    {
      EstimateIsInProportionAt(bs, rank, i);
    }
  }

  /** No finite bucket reaches the rank: v is the largest of the finite boundaries. */
  ghost predicate LargestBelow(bs: seq<Bucket>, rank: real, v: real) {
    (forall i :: 0 <= i < |bs| && bs[i].le.Finite? ==> bs[i].count < rank) ==>
      && (exists i :: 0 <= i < |bs| && bs[i].le == Finite(v))
      && forall i :: 0 <= i < |bs| && bs[i].le.Finite? ==> bs[i].le.r <= v
  }

  lemma EstimateBeyondTheLast(bs: seq<Bucket>, rank: real)
    requires Cumulative(bs) && RankOk(bs, rank) && bs[0].le.Finite?
    ensures EstimateAt(bs, rank).Some? && LargestBelow(bs, rank, EstimateAt(bs, rank).value)
  {
    SearchAgreesWithScan(bs, rank);
    LargestFiniteIs(bs);
    EstimateIsInItsBucket(bs, rank);
  }

  /** There is something to report about the q-th quantile. */
  predicate Answerable(bs: seq<Bucket>, q: real) {
    0.0 < q < 1.0 && bs != [] && bs[|bs| - 1].count > 0.0 && bs[0].le.Finite?
  }

  /**
    What the answer for q is, said of the buckets alone: there is one exactly for q between
    0 and 1 on a distribution that counts something and has a finite boundary, and it
    divides the bucket that q times the total falls in in proportion, or is the largest
    boundary when that rank falls in none.
    */
  ghost predicate IsAnswer(bs: seq<Bucket>, q: real, r: Option<real>) {
    && (r.Some? <==> Answerable(bs, q))
    && (r.Some? ==> DividesAtRank(bs, q * bs[|bs| - 1].count, r.value))
  }

  ghost predicate DividesAtRank(bs: seq<Bucket>, rank: real, v: real) {
    InProportion(bs, rank, v) && LargestBelow(bs, rank, v)
  }

  lemma EstimateAtDivides(bs: seq<Bucket>, rank: real)
    requires Cumulative(bs) && RankOk(bs, rank) && bs[0].le.Finite?
    ensures EstimateAt(bs, rank).Some? && DividesAtRank(bs, rank, EstimateAt(bs, rank).value)
  {
    EstimateBeyondTheLast(bs, rank);
    EstimateIsInProportion(bs, rank);
  }

  lemma AnswerableIsDefined(bs: seq<Bucket>, q: real)
    requires Cumulative(bs)
    ensures Estimate(bs, q).Some? <==> Answerable(bs, q)
  {
    if 0.0 < q < 1.0 {
      DefinednessIgnoresQ(bs, q);
    }
  }

  lemma EstimateOf(bs: seq<Bucket>, q: real) returns (rank: real)
    requires Cumulative(bs) && Answerable(bs, q)
    ensures rank == q * bs[|bs| - 1].count && RankOk(bs, rank) && Estimate(bs, q) == EstimateAt(bs, rank)
  {
    rank := Rank(q, bs[|bs| - 1].count);
    RankIsInside(q, bs[|bs| - 1].count);
  }

  lemma EstimateIsPinned(bs: seq<Bucket>, q: real)
    requires Cumulative(bs)
    ensures IsAnswer(bs, q, Estimate(bs, q))
  {
    AnswerableIsDefined(bs, q);
    if Answerable(bs, q) {
      var rank := EstimateOf(bs, q);
      EstimateAtDivides(bs, rank);
    }
  }

  /** A rank equal to a bucket's count is answered with the bucket's boundary. */
  lemma FullBucketIsItsBoundary(bs: seq<Bucket>, i: nat, v: real)
    requires Cumulative(bs) && 0 < i < |bs| && bs[i - 1].le.Finite? && bs[i].le.Finite?
    requires bs[i - 1].count < bs[i].count && InProportion(bs, bs[i].count, v)
    ensures v == bs[i].le.r
  {
    assert FallsIn(bs, i, bs[i].count);
    TimesCancels(v - bs[i - 1].le.r, bs[i].le.r - bs[i - 1].le.r, bs[i].count - bs[i - 1].count);
  }

  /** A rank halfway through a bucket's own observations is answered with its middle. */
  lemma HalfBucketIsItsMiddle(bs: seq<Bucket>, i: nat, rank: real, v: real)
    requires Cumulative(bs) && 0 < i < |bs| && bs[i - 1].le.Finite? && bs[i].le.Finite?
    requires bs[i - 1].count < bs[i].count && rank == (bs[i - 1].count + bs[i].count) / 2.0
    requires InProportion(bs, rank, v)
    ensures v == (bs[i - 1].le.r + bs[i].le.r) / 2.0
  {
    assert FallsIn(bs, i, rank);
    var half, span := (bs[i].le.r - bs[i - 1].le.r) / 2.0, bs[i].count - bs[i - 1].count;
    HalfOfProduct(bs[i].le.r - bs[i - 1].le.r, span);
    TimesCancels(v - bs[i - 1].le.r, half, span);
  }

  lemma HalfOfProduct(x: real, y: real)
    ensures x * (y / 2.0) == Times(x / 2.0, y)
  {
  }

  /** Whether there is an answer does not depend on which quantile is asked for. */
  lemma DefinednessIgnoresQ(bs: seq<Bucket>, q: real)
    requires Cumulative(bs) && 0.0 < q < 1.0
    ensures Estimate(bs, q).Some? <==> bs != [] && bs[|bs| - 1].count > 0.0 && bs[0].le.Finite?
  {
    if bs != [] && bs[|bs| - 1].count > 0.0 {
      RankIsInside(q, bs[|bs| - 1].count);
      LargestFiniteIs(bs);
      assert |bs| > 1 ==> Less(bs[0].le, bs[1].le);
    }
  }

  lemma SameBucketIsMonotone(bs: seq<Bucket>, idx: nat, r1: real, r2: real)
    requires Increasing(bs) && Arithmetical(bs) && idx < |bs| && bs[idx].le.Finite?
    requires idx > 0 || bs[0].le.r >= 0.0
    requires CountBelow(bs, idx) < r1 <= r2 <= bs[idx].count
    ensures Interpolate(bs, idx, r1).value <= Interpolate(bs, idx, r2).value
  {
    assert idx > 0 ==> Less(bs[idx - 1].le, bs[idx].le);
    var below := CountBelow(bs, idx);
    AlongIsMonotone(LowerEdge(bs, idx), bs[idx].le.r, bs[idx].count - below, r1 - below, r2 - below);
  }

  lemma LaterBucketIsHigher(bs: seq<Bucket>, i1: nat, r1: real, i2: nat, r2: real)
    requires Increasing(bs) && Arithmetical(bs) && i1 < i2 < |bs| && StartsForward(bs)
    requires CountBelow(bs, i1) < r1 <= bs[i1].count && CountBelow(bs, i2) < r2 <= bs[i2].count
    requires i1 == 0 ==> bs[0].count > 0.0
    ensures Interpolate(bs, i1, r1).Some? && Interpolate(bs, i2, r2).Some?
    ensures Interpolate(bs, i1, r1).value <= Interpolate(bs, i2, r2).value
  {
    LargestFiniteIs(bs);
    assert Less(bs[i1].le, bs[i2].le);
    assert bs[0].le.Finite?;
    InsideBucket(bs, i1, r1);
    if bs[i2].le.Finite? {
      InsideBucket(bs, i2, r2);
      assert i1 < i2 - 1 ==> Less(bs[i1].le, bs[i2 - 1].le);
    }
  }

  lemma EstimateAtIsMonotone(bs: seq<Bucket>, r1: real, r2: real)
    requires Cumulative(bs) && RankOk(bs, r1) && RankOk(bs, r2) && r1 <= r2
    requires bs[0].le.Finite? && StartsForward(bs)
    ensures EstimateAt(bs, r1).Some? && EstimateAt(bs, r2).Some?
    ensures EstimateAt(bs, r1).value <= EstimateAt(bs, r2).value
  {
    var i1, i2 := Landing(bs, r1), Landing(bs, r2);
    SearchAgreesWithScan(bs, r1);
    SearchAgreesWithScan(bs, r2);
    if i1 < i2 {
      LaterBucketIsHigher(bs, i1, r1, i2, r2);
    } else if bs[i1].le.Finite? {
      SameBucketIsMonotone(bs, i1, r1, r2);
    } else {
      LargestFiniteIs(bs);
    }
  }

  lemma RankIsMonotone(q1: real, q2: real, total: real)
    requires q1 <= q2 && total >= 0.0
    ensures Rank(q1, total) <= Rank(q2, total)
  {
  }

  /** A higher quantile never gets a lower estimate. */
  lemma EstimateIsMonotone(bs: seq<Bucket>, q1: real, q2: real)
    requires Cumulative(bs) && 0.0 < q1 <= q2 < 1.0
    requires Estimate(bs, q1).Some? && Estimate(bs, q2).Some?
    requires StartsForward(bs)
    ensures Estimate(bs, q1).value <= Estimate(bs, q2).value
  {
    DefinednessIgnoresQ(bs, q1);
    var r1, r2 := RanksOf(bs, q1, q2);
    EstimateAtIsMonotone(bs, r1, r2);
  }

  lemma RanksOf(bs: seq<Bucket>, q1: real, q2: real) returns (r1: real, r2: real)
    requires Arithmetical(bs) && bs != [] && bs[|bs| - 1].count > 0.0
    requires 0.0 < q1 <= q2 < 1.0
    ensures RankOk(bs, r1) && RankOk(bs, r2) && r1 <= r2
    ensures Estimate(bs, q1) == EstimateAt(bs, r1) && Estimate(bs, q2) == EstimateAt(bs, r2)
  {
    var total := bs[|bs| - 1].count;
    RankIsInside(q1, total);
    RankIsInside(q2, total);
    RankIsMonotone(q1, q2, total);
    r1, r2 := Rank(q1, total), Rank(q2, total);
  }

  ghost predicate MonotoneInQ(bs: seq<Bucket>)
    requires Arithmetical(bs)
  {
    forall q1: real, q2: real :: 0.0 < q1 <= q2 < 1.0 && Estimate(bs, q1).Some? && Estimate(bs, q2).Some? ==>
      Estimate(bs, q1).value <= Estimate(bs, q2).value
  }

  /**
    A negative first boundary with anything counted under it makes the estimate fall as
    q rises, because the first bucket is interpolated from zero. So the estimate is
    monotone exactly when the family has none.
    */
  lemma MonotoneExactlyWhen(bs: seq<Bucket>)
    requires Cumulative(bs) && bs != [] && bs[|bs| - 1].count > 0.0
    ensures MonotoneInQ(bs) <==> StartsForward(bs)
  {
    if StartsForward(bs) {
      forall q1: real, q2: real | 0.0 < q1 <= q2 < 1.0 && Estimate(bs, q1).Some? && Estimate(bs, q2).Some?
        ensures Estimate(bs, q1).value <= Estimate(bs, q2).value
      {
        EstimateIsMonotone(bs, q1, q2);
      }
    } else {
      var q1, q2 := NotMonotone(bs);
      assert !(Estimate(bs, q1).value <= Estimate(bs, q2).value);
    }
  }

  lemma NotMonotone(bs: seq<Bucket>) returns (q1: real, q2: real)
    requires Cumulative(bs) && bs != [] && bs[|bs| - 1].count > 0.0 && !StartsForward(bs)
    ensures 0.0 < q1 <= q2 < 1.0 && Estimate(bs, q1).Some? && Estimate(bs, q2).Some?
    ensures Estimate(bs, q1).value > Estimate(bs, q2).value
  {
    var c, total := bs[0].count, bs[|bs| - 1].count;
    assert c <= total;
    q1, q2 := SmallQuantiles(c, total);
    var r1, r2 := Rank(q1, total), Rank(q2, total);
    FallsInFirstBucket(bs, r1);
    FallsInFirstBucket(bs, r2);
    AlongFalls(0.0, bs[0].le.r, c, r1, r2);
  }

  lemma Cancel(c: real, total: real, k: real)
    requires total > 0.0 && k > 0.0
    ensures Rank(c / (k * total), total) == c / k
  {
  }

  /** Two quantiles whose ranks fall among the first c of the counts. */
  lemma SmallQuantiles(c: real, total: real) returns (q1: real, q2: real)
    requires 0.0 < c <= total
    ensures 0.0 < q1 < q2 < 1.0 && 0.0 < Rank(q1, total) < Rank(q2, total) <= c
  {
    q1, q2 := c / (4.0 * total), c / (2.0 * total);
    Cancel(c, total, 4.0);
    Cancel(c, total, 2.0);
    Ordered(q1, q2, total);
  }

  lemma Ordered(q1: real, q2: real, total: real)
    requires total > 0.0 && 0.0 < Rank(q1, total) < Rank(q2, total) < total
    ensures 0.0 < q1 < q2 < 1.0
  {
    if q1 <= 0.0 {
      RankIsMonotone(q1, 0.0, total);
    }
    if q2 <= q1 {
      RankIsMonotone(q2, q1, total);
    }
    if 1.0 <= q2 {
      RankIsMonotone(1.0, q2, total);
    }
  }

  lemma FallsInFirstBucket(bs: seq<Bucket>, rank: real)
    requires Cumulative(bs) && RankOk(bs, rank) && bs[0].le.Finite? && rank <= bs[0].count
    ensures EstimateAt(bs, rank) == Some(Along(0.0, bs[0].le.r, rank, bs[0].count))
  {
  }
}
