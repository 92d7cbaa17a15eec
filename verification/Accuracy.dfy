/**
  From observations to the reported quantile: histograms are recorded, printed, parsed,
  merged and interpolated, and the answer falls in the same bucket as the exact
  quantile of all the observations.
  */
module Accuracy {
  import opened Telemetry
  import opened Reals
  import opened PromText
  import opened Text
  import opened Seqs
  import opened Quantile
  import opened Buckets
  import opened Exposition
  import opened Histogram

  function AllObs(family: seq<Recorded>): seq<real> {
    if family == [] then [] else AllObs(family[..|family| - 1]) + family[|family| - 1].obs
  }

  /** The printed numbers are read back as they were, and fit in one field. */
  ghost predicate FormatOk(pv: ValueParser, format: Format, bounds: seq<real>) {
    && pv("+Inf") == Some(PosInf)
    && (forall i :: 0 <= i < |bounds| ==> pv(format.le(bounds[i])) == Some(Finite(bounds[i])))
    && (forall n: nat :: pv(format.count(n)) == Some(Finite(n as real)) && ValueOk(format.count(n)))
    && (forall x: real :: pv(format.sum(x)).Some? && ValueOk(format.sum(x)))
  }

  /**
    For every list of boundaries some ParseFloat makes the program's own value parser
    read a notation back: here, tagged unary numbers.
    */
  lemma SomeFormatReadsBack(bounds: seq<real>)
    ensures exists pf: ParseFloat, format: Format :: FormatOk(ValueParserOf(pf), format, bounds)
  {
    var pv, format := ValueParserOf(ReadUnary(bounds)), UnaryFormat(bounds);
    BoundsAreRead(bounds);
    CountsAreRead(bounds);
    assert FormatOk(pv, format, bounds);
  }

  lemma CountsAreRead(bounds: seq<real>)
    ensures
      var pv, format := ValueParserOf(ReadUnary(bounds)), UnaryFormat(bounds);
      && (forall n: nat :: pv(format.count(n)) == Some(Finite(n as real)) && ValueOk(format.count(n)))
      && (forall x: real :: pv(format.sum(x)).Some? && ValueOk(format.sum(x)))
  {
    forall n: nat
      ensures ValueParserOf(ReadUnary(bounds))(UnaryFormat(bounds).count(n)) == Some(Finite(n as real))
      ensures ValueOk(UnaryFormat(bounds).count(n))
    {
      UnaryIsRead(bounds, n);
    }
    UnaryIsRead(bounds, 0);
  }

  lemma BoundsAreRead(bounds: seq<real>)
    ensures
      var pv, format := ValueParserOf(ReadUnary(bounds)), UnaryFormat(bounds);
      && pv("+Inf") == Some(PosInf)
      && forall i :: 0 <= i < |bounds| ==> pv(format.le(bounds[i])) == Some(Finite(bounds[i]))
  {
    forall i | 0 <= i < |bounds|
      ensures ValueParserOf(ReadUnary(bounds))(UnaryFormat(bounds).le(bounds[i])) == Some(Finite(bounds[i]))
    {
      BoundIsRead(bounds, i);
    }
  }

  lemma BoundIsRead(bounds: seq<real>, i: nat)
    requires i < |bounds|
    ensures ValueParserOf(ReadUnary(bounds))(UnaryFormat(bounds).le(bounds[i])) == Some(Finite(bounds[i]))
  {
    assert bounds[i] in bounds;
    UnaryIsRead(bounds, IndexIn(bounds, bounds[i]));
  }

  function UnaryFormat(bounds: seq<real>): Format {
    Format(x => Unary('b', IndexIn(bounds, x)), (n: nat) => Unary('c', n), x => Unary('c', 0))
  }

  function ReadUnary(bounds: seq<real>): ParseFloat {
    (s: string) =>
      if s == "" then None
      else if s == Unary('b', |s| - 1) && |s| <= |bounds| then Some(Finite(bounds[|s| - 1]))
      else if s == Unary('c', |s| - 1) then Some(Finite((|s| - 1) as real))
      else None
  }

  lemma UnaryIsRead(bounds: seq<real>, n: nat)
    ensures ValueParserOf(ReadUnary(bounds))(Unary('c', n)) == Some(Finite(n as real))
    ensures n < |bounds| ==> ValueParserOf(ReadUnary(bounds))(Unary('b', n)) == Some(Finite(bounds[n]))
    ensures ValueOk(Unary('c', n))
  {
    var b, c := Unary('b', n), Unary('c', n);
    OrdinaryIsPassedOn(ReadUnary(bounds), b);
    OrdinaryIsPassedOn(ReadUnary(bounds), c);
    UnaryIsUndone(bounds, n, b, c);
  }

  lemma OrdinaryIsPassedOn(pf: ParseFloat, s: string)
    requires s != "" && (s[0] == 'b' || s[0] == 'c')
    ensures ValueParserOf(pf)(s) == pf(s)
  {
  }

  lemma UnaryIsUndone(bounds: seq<real>, n: nat, b: string, c: string)
    requires b == Unary('b', n) && c == Unary('c', n)
    ensures ReadUnary(bounds)(c) == Some(Finite(n as real))
    ensures n < |bounds| ==> ReadUnary(bounds)(b) == Some(Finite(bounds[n]))
  {
    assert |b| == n + 1 && |c| == n + 1 && b[0] != c[0];
  }

  function Unary(tag: char, n: nat): (s: string)
    ensures |s| == n + 1 && s[0] == tag
    ensures !IsSpace(tag) ==> NoSpace(s)
  {
    [tag] + seq(n, i => '1')
  }

  function IndexIn(bounds: seq<real>, x: real): (i: nat)
    ensures x in bounds ==> i < |bounds| && bounds[i] == x
  {
    if bounds == [] || bounds[0] == x then 0 else 1 + IndexIn(bounds[1..], x)
  }

  function Boundary(bounds: seq<real>, i: nat): Float {
    if i < |bounds| then Finite(bounds[i]) else PosInf
  }

  /** The merged buckets of any number of series: cumulative counts of all observations. */
  function ExactBuckets(bounds: seq<real>, obs: seq<real>): seq<Bucket> {
    seq(|bounds| + 1, i requires i >= 0 => Bucket(Boundary(bounds, i), CumulativeCount(bounds, obs, i) as real))
  }

  lemma ExactBucketsAreCumulative(bounds: seq<real>, obs: seq<real>)
    requires IncreasingBounds(bounds)
    ensures Cumulative(ExactBuckets(bounds, obs))
  {
    var bs := ExactBuckets(bounds, obs);
    forall i, j | 0 <= i <= j < |bs|
      ensures bs[i].count <= bs[j].count
    {
      CountsAreOrdered(obs, if i < |bounds| then bounds[i] else 0.0, if j < |bounds| then bounds[j] else 0.0);
    }
  }

  // ---------------------------------------------------------------------------
  // The exact quantile
  // ---------------------------------------------------------------------------

  /** x is the k-th smallest of the observations, counting from one. */
  predicate IsKthSmallest(obs: seq<real>, k: nat, x: real) {
    x in obs && CountLt(obs, x) < k <= CountLe(obs, x)
  }

  lemma {:induction false} LargestObservation(obs: seq<real>) returns (x: real)
    requires obs != []
    ensures x in obs && CountLe(obs, x) == |obs|
  {
    var init, last := obs[..|obs| - 1], obs[|obs| - 1];
    if init == [] {
      x := last;
    } else {
      var y := LargestObservation(init);
      x := if y < last then last else y;
      CountsAreOrdered(init, y, x);
      CountsAreOrdered(init, x, x);
    }
  }

  lemma {:induction false} CountLeBetween(obs: seq<real>, x: real)
    requires CountLt(obs, x) > 0
    ensures exists y :: y in obs && y < x && CountLe(obs, y) == CountLt(obs, x)
  {
    var init, last := obs[..|obs| - 1], obs[|obs| - 1];
    if CountLt(init, x) > 0 {
      CountLeBetween(init, x);
      var y :| y in init && y < x && CountLe(init, y) == CountLt(init, x);
      var z := if y < last < x then last else y;
      CountsAreOrdered(init, y, z);
      CountsAreOrdered(init, z, x);
      assert z in obs && z < x && CountLe(obs, z) == CountLt(obs, x);
    } else {
      assert last < x;
      CountsAreOrdered(init, last, x);
      assert last in obs && CountLe(obs, last) == CountLt(obs, x);
    }
  }

  /** Every rank has its observation, so the accuracy theorem is about something. */
  lemma KthSmallestExists(obs: seq<real>, k: nat)
    requires 0 < k <= |obs|
    ensures exists x :: IsKthSmallest(obs, k, x)
  {
    var largest := LargestObservation(obs);
    KthSmallestUpTo(obs, k, largest);
  }

  lemma {:induction false} KthSmallestUpTo(obs: seq<real>, k: nat, from: real)
    requires 0 < k <= CountLe(obs, from) && from in obs
    ensures exists x :: IsKthSmallest(obs, k, x)
    decreases CountLe(obs, from)
  {
    if CountLt(obs, from) < k {
      assert IsKthSmallest(obs, k, from);
    } else {
      CountLeBetween(obs, from);
      var y :| y in obs && y < from && CountLe(obs, y) == CountLt(obs, from);
      CountsOwnValue(obs, from);
      KthSmallestUpTo(obs, k, y);
    }
  }

  lemma {:induction false} CountsOwnValue(obs: seq<real>, x: real)
    requires x in obs
    ensures CountLt(obs, x) < CountLe(obs, x)
  {
    if obs[|obs| - 1] == x {
      CountsAreOrdered(obs[..|obs| - 1], x, x);
    } else {
      CountsOwnValue(obs[..|obs| - 1], x);
    }
  }

  /** k is q n rounded up. */
  predicate IsRank(q: real, n: nat, k: nat) {
    k as real - 1.0 < q * n as real <= k as real
  }

  /** Every quantile of something has a rank, and it is the rank of an observation. */
  lemma RankExists(q: real, n: nat) returns (k: nat)
    requires 0.0 < q < 1.0 && n > 0
    ensures IsRank(q, n, k) && 0 < k <= n
  {
    RankIsInside(q, n as real);
    var floor := Rank(q, n as real).Floor;
    k := if floor as real == Rank(q, n as real) then floor else floor + 1;
  }

  // ---------------------------------------------------------------------------
  // Accuracy
  // ---------------------------------------------------------------------------

  /** v and x lie in the bucket with upper boundary bounds[i]. */
  predicate InBucket(bounds: seq<real>, i: nat, v: real)
    requires i < |bounds|
  {
    (if i == 0 then 0.0 <= v else bounds[i - 1] < v) && v <= bounds[i]
  }

  lemma ExactLanding(bounds: seq<real>, obs: seq<real>, rank: real, k: nat, x: real)
    requires IncreasingBounds(bounds) && bounds != []
    requires (k - 1) as real < rank <= k as real && k <= |obs| && rank > 0.0
    requires IsKthSmallest(obs, k, x)
    ensures RankOk(ExactBuckets(bounds, obs), rank)
    ensures Landing(ExactBuckets(bounds, obs), rank) == BucketOf(bounds, x)
  {
    var bs := ExactBuckets(bounds, obs);
    var m := BucketOf(bounds, x);
    ExactBucketsAreCumulative(bounds, obs);
    SearchAgreesWithScan(bs, rank);
    BucketOfIsFirst(bounds, x);
    if m < |bounds| {
      CountsAreOrdered(obs, x, bounds[m]);
    }
    assert bs[m].count >= rank;
    forall i | 0 <= i < m
      ensures bs[i].count < rank
    {
      CountsAreOrdered(obs, bounds[i], x);
      assert CountLe(obs, bounds[i]) <= k - 1;
    }
  }

  /**
    v divides the i-th bucket as the rank q n divides the observations in it: what lies at
    or below the edges is counted on the observations themselves.
    */
  predicate Apportioned(bounds: seq<real>, obs: seq<real>, i: nat, q: real, v: real)
    requires i < |bounds|
  {
    var lower := if i == 0 then 0.0 else bounds[i - 1];
    var below := if i == 0 then 0 else CountLe(obs, bounds[i - 1]);
    Divides(lower, bounds[i], (CountLe(obs, bounds[i]) - below) as real, q * |obs| as real - below as real, v)
  }

  /**
    The estimate lies in the same bucket as the ceil(q n)-th smallest observation, and
    divides it as the rank divides its observations; when that observation exceeds every
    boundary it is the largest boundary instead.
    */
  lemma EstimateIsAccurate(bounds: seq<real>, obs: seq<real>, q: real, k: nat, x: real)
    requires IncreasingBounds(bounds) && bounds != [] && bounds[0] > 0.0
    requires obs != [] && (forall i :: 0 <= i < |obs| ==> obs[i] >= 0.0)
    requires 0.0 < q < 1.0 && IsRank(q, |obs|, k) && IsKthSmallest(obs, k, x)
    ensures
      var r := if Cumulative(ExactBuckets(bounds, obs)) then Estimate(ExactBuckets(bounds, obs), q) else None;
      && r.Some?
      && (if x > bounds[|bounds| - 1] then r.value == bounds[|bounds| - 1]
          else exists i :: 0 <= i < |bounds| && InBucket(bounds, i, x) && InBucket(bounds, i, r.value) &&
                           Apportioned(bounds, obs, i, q, r.value))
  {
    var bs := ExactBuckets(bounds, obs);
    var rank := Rank(q, |obs| as real);
    RankIsInside(q, |obs| as real);
    ExactBucketsAreCumulative(bounds, obs);
    CountsAreOrdered(obs, x, x);
    ExactLanding(bounds, obs, rank, k, x);
    assert bs[|bs| - 1].count == |obs| as real;
    assert Estimate(bs, q) == EstimateAt(bs, rank);
    BucketOfIsFirst(bounds, x);
    var m := BucketOf(bounds, x);
    SearchAgreesWithScan(bs, rank);
    if m < |bounds| {
      InsideBucket(bs, m, rank);
      assert m > 0 ==> bounds[m - 1] < bounds[m];
      assert x >= 0.0;
      EstimateIsInProportionAt(bs, rank, m);
      ExactDivides(bounds, obs, q, m, EstimateAt(bs, rank).value);
      assert InBucket(bounds, m, x) && InBucket(bounds, m, EstimateAt(bs, rank).value);
    } else {
      LargestBoundary(bounds, obs);
    }
  }

  lemma ExactDivides(bounds: seq<real>, obs: seq<real>, q: real, i: nat, v: real)
    requires i < |bounds| && FallsIn(ExactBuckets(bounds, obs), i, Rank(q, |obs| as real))
    requires InProportionAt(ExactBuckets(bounds, obs), i, Rank(q, |obs| as real), v)
    ensures Apportioned(bounds, obs, i, q, v)
  {
    var bs := ExactBuckets(bounds, obs);
    assert bs[i] == Bucket(Finite(bounds[i]), CountLe(obs, bounds[i]) as real);
    if i > 0 {
      assert bs[i - 1] == Bucket(Finite(bounds[i - 1]), CountLe(obs, bounds[i - 1]) as real);
      assert bs[i].count - bs[i - 1].count == (CountLe(obs, bounds[i]) - CountLe(obs, bounds[i - 1])) as real;
    }
  }

  lemma LargestBoundary(bounds: seq<real>, obs: seq<real>)
    requires bounds != []
    ensures Arithmetical(ExactBuckets(bounds, obs))
    ensures LargestFinite(ExactBuckets(bounds, obs)) == Some(bounds[|bounds| - 1])
  {
  }

  /**
    A single observation is not reported as its bucket's boundary but as a point q of the
    way into the bucket, short of the boundary.
    */
  lemma OneObservationIsInterpolated(bounds: seq<real>, x: real, q: real)
    requires IncreasingBounds(bounds) && bounds != [] && bounds[0] > 0.0
    requires 0.0 <= x <= bounds[|bounds| - 1] && 0.0 < q < 1.0
    ensures
      var m := BucketOf(bounds, x);
      && m < |bounds| && Arithmetical(ExactBuckets(bounds, [x]))
      && var lower := if m == 0 then 0.0 else bounds[m - 1];
         && Estimate(ExactBuckets(bounds, [x]), q) == Some(Along(lower, bounds[m], q, 1.0))
         && Along(lower, bounds[m], q, 1.0) < bounds[m]
  {
    var bs := ExactBuckets(bounds, [x]);
    var m := BucketOf(bounds, x);
    BucketOfIsFirst(bounds, x);
    OneCount(x);
    RankOfOne(q);
    ExactBucketsAreCumulative(bounds, [x]);
    ExactLanding(bounds, [x], Rank(q, 1.0), 1, x);
    SearchAgreesWithScan(bs, Rank(q, 1.0));
    assert Estimate(bs, q) == EstimateAt(bs, Rank(q, 1.0));
    assert CountLe([x], bounds[m]) == 1;
    assert m > 0 ==> CountLe([x], bounds[m - 1]) == 0;
    assert bs[m].count == 1.0 && CountBelow(bs, m) == 0.0;
    var lower := if m == 0 then 0.0 else bounds[m - 1];
    FractionOrder(q, 1.0, 1.0);
    TimesOrder(bounds[m] - lower, q / 1.0, 1.0);
  }

  lemma OneCount(x: real)
    ensures CountLt([x], x) == 0 && CountLe([x], x) == 1
    ensures forall y: real :: CountLe([x], y) == if x <= y then 1 else 0
  {
  }

  lemma RankOfOne(q: real)
    ensures Rank(q, 1.0) == q
  {
  }

  // ---------------------------------------------------------------------------
  // Merging any number of series
  // ---------------------------------------------------------------------------

  function BucketSample(format: Format, bounds: seq<real>, r: Recorded, name: string, i: nat): Sample {
    Sample(name + "_bucket", WithLabels(map[], r.labels + [("le", LeText(format, bounds, i))]),
           Finite(CumulativeCount(bounds, r.obs, i) as real))
  }

  function BucketSamples(format: Format, bounds: seq<real>, r: Recorded, name: string): seq<Sample> {
    seq(|bounds| + 1, i requires i >= 0 => BucketSample(format, bounds, r, name, i))
  }

  function FamilySamples(format: Format, bounds: seq<real>, family: seq<Recorded>, name: string): seq<Sample> {
    if family == [] then []
    else
      FamilySamples(format, bounds, family[..|family| - 1], name) +
      BucketSamples(format, bounds, family[|family| - 1], name)
  }

  lemma {:induction false} WithLabelsAppend(read: Labels, labels: seq<(string, string)>, k: string, v: string)
    ensures WithLabels(read, labels + [(k, v)]) == WithLabels(read, labels)[k := v]
    decreases |labels|
  {
    if labels == [] {
      assert [] + [(k, v)] == [(k, v)];
      assert [(k, v)][1..] == [];
    } else {
      assert (labels + [(k, v)])[1..] == labels[1..] + [(k, v)];
      WithLabelsAppend(read[labels[0].0 := labels[0].1], labels[1..], k, v);
    }
  }

  lemma BoundaryIsRead(pv: ValueParser, format: Format, bounds: seq<real>, r: Recorded, name: string, i: nat)
    requires FormatOk(pv, format, bounds) && i <= |bounds|
    ensures LeOf(pv, BucketSample(format, bounds, r, name, i)) == Some(Boundary(bounds, i))
  {
    WithLabelsAppend(map[], r.labels, "le", LeText(format, bounds, i));
  }

  function At(totals: map<Float, real>, le: Float): real {
    if le in totals then totals[le] else 0.0
  }

  lemma SampleAdds(pv: ValueParser, raw: seq<Sample>, s: Sample, le: Float)
    requires Countable(raw) && LeOf(pv, s) == Some(le) && s.value.Finite?
    ensures Countable(raw + [s])
    ensures Totals(pv, raw + [s]) == Totals(pv, raw)[le := At(Totals(pv, raw), le) + s.value.r]
  {
  }

  /** One number per boundary, in order, with the open-ended bucket last. */
  ghost predicate OnePerBoundary(pv: ValueParser, bounds: seq<real>, samples: seq<Sample>) {
    && |samples| == |bounds| + 1
    && forall i :: 0 <= i < |samples| ==>
         LeOf(pv, samples[i]) == Some(Boundary(bounds, i)) && samples[i].value.Finite?
  }

  /** What adding the first j buckets of a series does to the totals. */
  ghost predicate Added(bounds: seq<real>, before: map<Float, real>, after: map<Float, real>,
                        samples: seq<Sample>, j: nat)
    requires forall i :: 0 <= i < |samples| ==> samples[i].value.Finite?
    requires |samples| == |bounds| + 1
  {
    && (forall le :: le in after <==> le in before || exists i :: 0 <= i < j && le == Boundary(bounds, i))
    && forall i :: 0 <= i <= |bounds| ==>
         At(after, Boundary(bounds, i)) ==
         At(before, Boundary(bounds, i)) + if i < j then samples[i].value.r else 0.0
  }

  lemma AddedNext(bounds: seq<real>, before: map<Float, real>, mid: map<Float, real>, samples: seq<Sample>, j: nat)
    requires IncreasingBounds(bounds) && |samples| == |bounds| + 1 && j <= |bounds|
    requires forall i :: 0 <= i < |samples| ==> samples[i].value.Finite?
    requires Added(bounds, before, mid, samples, j)
    ensures
      var le := Boundary(bounds, j);
      Added(bounds, before, mid[le := At(mid, le) + samples[j].value.r], samples, j + 1)
  {
  }

  lemma SeriesAddsNext(pv: ValueParser, bounds: seq<real>, samples: seq<Sample>, before: map<Float, real>,
                       prefix: seq<Sample>, j: nat)
    requires IncreasingBounds(bounds) && |samples| == |bounds| + 1 && j < |samples|
    requires forall i :: 0 <= i < |samples| ==> samples[i].value.Finite?
    requires LeOf(pv, samples[j]) == Some(Boundary(bounds, j))
    requires Countable(prefix) && Added(bounds, before, Totals(pv, prefix), samples, j)
    ensures Countable(prefix + [samples[j]])
    ensures Added(bounds, before, Totals(pv, prefix + [samples[j]]), samples, j + 1)
  {
    SampleAdds(pv, prefix, samples[j], Boundary(bounds, j));
    AddedNext(bounds, before, Totals(pv, prefix), samples, j);
  }

  lemma {:induction false} SeriesAdds(pv: ValueParser, bounds: seq<real>, samples: seq<Sample>,
                                      raw: seq<Sample>, j: nat)
    requires OnePerBoundary(pv, bounds, samples) && IncreasingBounds(bounds) && j <= |samples|
    requires Countable(raw)
    ensures Countable(raw + samples[..j])
    ensures Added(bounds, Totals(pv, raw), Totals(pv, raw + samples[..j]), samples, j)
    decreases j
  {
    if j == 0 {
      assert raw + samples[..0] == raw;
    } else {
      SeriesAdds(pv, bounds, samples, raw, j - 1);
      SeriesAddsNext(pv, bounds, samples, Totals(pv, raw), raw + samples[..j - 1], j - 1);
      TakeNext(raw, samples, j - 1);
    }
  }

  /** Whatever way the observations are spread over series, the totals count all of them. */
  lemma {:induction false} FamilyTotals(pv: ValueParser, format: Format, bounds: seq<real>,
                                        family: seq<Recorded>, name: string)
    requires FormatOk(pv, format, bounds) && IncreasingBounds(bounds)
    ensures Countable(FamilySamples(format, bounds, family, name))
    ensures
      var totals := Totals(pv, FamilySamples(format, bounds, family, name));
      && (forall le :: le in totals <==> family != [] && exists i :: 0 <= i <= |bounds| && le == Boundary(bounds, i))
      && forall i :: 0 <= i <= |bounds| ==>
           At(totals, Boundary(bounds, i)) == CumulativeCount(bounds, AllObs(family), i) as real
  {
    if family != [] {
      var init, last := family[..|family| - 1], family[|family| - 1];
      FamilyTotals(pv, format, bounds, init, name);
      var samples := BucketSamples(format, bounds, last, name);
      forall i | 0 <= i < |samples|
        ensures LeOf(pv, samples[i]) == Some(Boundary(bounds, i))
      {
        BoundaryIsRead(pv, format, bounds, last, name, i);
      }
      SeriesAdds(pv, bounds, samples, FamilySamples(format, bounds, init, name), |samples|);
      assert samples[..|samples|] == samples;
      forall i | 0 <= i <= |bounds|
        ensures CumulativeCount(bounds, AllObs(family), i) ==
                CumulativeCount(bounds, AllObs(init), i) + CumulativeCount(bounds, last.obs, i)
      {
        CumulativeConcat(bounds, AllObs(init), last.obs, i);
      }
    }
  }

  lemma CumulativeConcat(bounds: seq<real>, a: seq<real>, b: seq<real>, i: nat)
    requires i <= |bounds|
    ensures CumulativeCount(bounds, a + b, i) == CumulativeCount(bounds, a, i) + CumulativeCount(bounds, b, i)
  {
    if i < |bounds| {
      CountLeConcat(a, b, bounds[i]);
    }
  }

  lemma FamilyMergesToExactBuckets(pv: ValueParser, format: Format, bounds: seq<real>,
                                   family: seq<Recorded>, name: string)
    requires FormatOk(pv, format, bounds) && IncreasingBounds(bounds) && family != []
    ensures Countable(FamilySamples(format, bounds, family, name))
    ensures NegInf !in Totals(pv, FamilySamples(format, bounds, family, name))
    ensures MergesTo(pv, FamilySamples(format, bounds, family, name), ExactBuckets(bounds, AllObs(family)))
  {
    FamilyTotals(pv, format, bounds, family, name);
    var totals := Totals(pv, FamilySamples(format, bounds, family, name));
    var bs := ExactBuckets(bounds, AllObs(family));
    ExactBucketsAreCumulative(bounds, AllObs(family));
    ClampingCumulativeCounts(bs);
    ExactlyListed(totals, bounds, AllObs(family));
  }

  /** Totals with one count per boundary, each the exact one, are listed by the exact buckets. */
  lemma ExactlyListed(totals: map<Float, real>, bounds: seq<real>, obs: seq<real>)
    requires IncreasingBounds(bounds)
    requires forall le :: le in totals <==> exists i :: 0 <= i <= |bounds| && le == Boundary(bounds, i)
    requires forall i :: 0 <= i <= |bounds| ==>
      At(totals, Boundary(bounds, i)) == CumulativeCount(bounds, obs, i) as real
    ensures NegInf !in totals && Lists(totals, ExactBuckets(bounds, obs))
  {
    var bs := ExactBuckets(bounds, obs);
    forall i | 0 <= i < |bs|
      ensures bs[i].le in totals && bs[i].count == totals[bs[i].le]
    {
      assert bs[i].le == Boundary(bounds, i);
    }
    forall le | le in totals
      ensures exists i :: 0 <= i < |bs| && bs[i].le == le
    {
      var i :| 0 <= i <= |bounds| && le == Boundary(bounds, i);
      assert bs[i].le == le;
    }
  }
}
