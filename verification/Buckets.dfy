/** Selecting, merging, sorting and clamping bucket series: internal/promtext/parse.go. */
module Buckets {
  import opened Telemetry
  import opened PromText
  import opened Sorting
  import opened Seqs
  import opened Quantile

  /** The boundary of a bucket sample, when its `le` label is a number or an infinity. */
  function LeOf(pv: ValueParser, s: Sample): Option<Float> {
    if "le" !in s.labels then None
    else
      match pv(s.labels["le"])
      case Some(NaN) => None
      case le => le
  }

  /** Infinite counts are not part of this model. */
  predicate Countable(raw: seq<Sample>) {
    forall i :: 0 <= i < |raw| ==> !raw[i].value.PosInf? && !raw[i].value.NegInf?
  }

  /** The counts by boundary, summed over every sample that shares it. */
  function Totals(pv: ValueParser, raw: seq<Sample>): map<Float, real>
    requires Countable(raw)
  {
    if raw == [] then map[]
    else AddSample(Totals(pv, raw[..|raw| - 1]), pv, raw[|raw| - 1])
  }

  function AddSample(totals: map<Float, real>, pv: ValueParser, s: Sample): map<Float, real>
    requires !s.value.PosInf? && !s.value.NegInf?
  {
    var le := LeOf(pv, s);
    if le == None || s.value.NaN? then totals
    else totals[le.value := (if le.value in totals then totals[le.value] else 0.0) + s.value.r]
  }

  /** A sample without a boundary that is a number or an infinity, or without a value, counts nowhere. */
  lemma SamplesThatDoNotCount(pv: ValueParser, raw: seq<Sample>, s: Sample)
    requires Countable(raw + [s])
    requires s.value.NaN? || "le" !in s.labels || pv(s.labels["le"]) == None || pv(s.labels["le"]) == Some(NaN)
    ensures Countable(raw) && Totals(pv, raw + [s]) == Totals(pv, raw)
  {
    assert (raw + [s])[..|raw|] == raw;
    assert forall i :: 0 <= i < |raw| ==> raw[i] == (raw + [s])[i];
  }

  /** The buckets listed in order of their boundaries. */
  ghost predicate Lists(totals: map<Float, real>, us: seq<Bucket>) {
    && Increasing(us)
    && (forall i :: 0 <= i < |us| ==> us[i].le in totals && us[i].count == totals[us[i].le])
    && (forall le :: le in totals ==> exists i :: 0 <= i < |us| && us[i].le == le)
  }

  function Max(a: real, b: real): real {
    if a < b then b else a
  }

  /** Each count raised to the largest one at or before it. */
  function Clamped(us: seq<Bucket>): (bs: seq<Bucket>)
    ensures |bs| == |us|
  {
    if us == [] then []
    else
      var init := Clamped(us[..|us| - 1]);
      var last := us[|us| - 1];
      init + [if init == [] then last else last.(count := Max(last.count, init[|init| - 1].count))]
  }

  /** Clamping yields prefix maxima and leaves the boundaries alone. */
  lemma {:induction false} ClampedIsPrefixMaximum(us: seq<Bucket>, i: nat)
    requires i < |us|
    ensures Clamped(us)[i].le == us[i].le
    ensures forall j :: 0 <= j <= i ==> us[j].count <= Clamped(us)[i].count
    ensures exists j :: 0 <= j <= i && us[j].count == Clamped(us)[i].count
    decreases |us|
  {
    var init := us[..|us| - 1];
    if i < |us| - 1 {
      ClampedIsPrefixMaximum(init, i);
      var j :| 0 <= j <= i && init[j].count == Clamped(init)[i].count;
      assert us[j].count == Clamped(us)[i].count;
      assert forall j :: 0 <= j <= i ==> us[j] == init[j];
    } else if |us| > 1 {
      ClampedIsPrefixMaximum(init, i - 1);
      var j :| 0 <= j <= i - 1 && init[j].count == Clamped(init)[i - 1].count;
      assert us[j].count == init[j].count;
      assert forall j :: 0 <= j <= i - 1 ==> us[j] == init[j];
    }
  }

  lemma {:induction false} ClampedKeepsBoundaries(us: seq<Bucket>)
    ensures forall i :: 0 <= i < |us| ==> Clamped(us)[i].le == us[i].le
  {
    if us != [] {
      ClampedKeepsBoundaries(us[..|us| - 1]);
    }
  }

  lemma {:induction false} ClampedIsNonDecreasing(us: seq<Bucket>)
    ensures NonDecreasing(Clamped(us))
  {
    if us != [] {
      var init, bs := Clamped(us[..|us| - 1]), Clamped(us);
      ClampedIsNonDecreasing(us[..|us| - 1]);
      assert forall i :: 0 <= i < |init| ==> bs[i] == init[i];
      assert init != [] ==> init[|init| - 1].count <= bs[|init|].count;
    }
  }

  lemma ClampedIsOrdered(us: seq<Bucket>)
    requires Increasing(us)
    ensures Increasing(Clamped(us)) && NonDecreasing(Clamped(us))
    ensures forall i :: 0 <= i < |us| ==> Clamped(us)[i].le == us[i].le
  {
    ClampedKeepsBoundaries(us);
    ClampedIsNonDecreasing(us);
  }

  /** Counts that already rise are not changed. */
  lemma {:induction false} ClampingCumulativeCounts(us: seq<Bucket>)
    requires NonDecreasing(us)
    ensures Clamped(us) == us
  {
    if us != [] {
      var init, last := us[..|us| - 1], us[|us| - 1];
      ClampingCumulativeCounts(init);
      assert us == init + [last];
      if init != [] {
        assert init[|init| - 1] == us[|us| - 2] && us[|us| - 2].count <= last.count;
        assert last.(count := Max(last.count, init[|init| - 1].count)) == last;
      }
    }
  }

  ghost predicate BucketLess(a: Bucket, b: Bucket) {
    Less(a.le, b.le)
  }

  /** However the map is walked, the sorted listing is the same. */
  lemma ListingIsUnique(totals: map<Float, real>, a: seq<Bucket>, b: seq<Bucket>)
    requires Lists(totals, a) && Lists(totals, b)
    ensures a == b
  {
    forall x
      ensures x in a ==> x in b
      ensures x in b ==> x in a
    {
      if x in a {
        var j :| 0 <= j < |b| && b[j].le == x.le;
      }
      if x in b {
        var j :| 0 <= j < |a| && a[j].le == x.le;
      }
    }
    SortedIsUnique(BucketLess, a, b);
  }

  // ---------------------------------------------------------------------------
  // The program
  // ---------------------------------------------------------------------------

  method SumByBoundary(pv: ValueParser, raw: seq<Sample>) returns (byLE: map<Float, real>)
    requires Countable(raw)
    ensures byLE == Totals(pv, raw)
  {
    byLE := map[];
    for i := 0 to |raw|
      invariant byLE == Totals(pv, raw[..i])
    {
      assert raw[..i + 1][..i] == raw[..i];
      var le := LeOf(pv, raw[i]);
      if le.Some? && raw[i].value.Finite? {
        var sofar := if le.value in byLE then byLE[le.value] else 0.0;
        byLE := byLE[le.value := sofar + raw[i].value.r];
      }
    }
    assert raw[..|raw|] == raw;
  }

  /** Walks the map in some order and sorts what it finds. */
  method SortedBuckets(totals: map<Float, real>) returns (us: seq<Bucket>)
    requires NaN !in totals
    ensures Lists(totals, us)
  {
    us := [];
    var todo := totals.Keys;
    ghost var listed: map<Float, real> := map[];
    while todo != {}
      invariant todo <= totals.Keys && listed.Keys == totals.Keys - todo
      invariant forall le :: le in listed ==> listed[le] == totals[le]
      invariant Lists(listed, us)
      decreases |todo|
    {
      var le :| le in todo;
      us := Insert(listed, us, Bucket(le, totals[le]));
      listed := listed[le := totals[le]];
      todo := todo - {le};
    }
    assert listed == totals;
  }

  method Insert(ghost totals: map<Float, real>, us: seq<Bucket>, b: Bucket) returns (vs: seq<Bucket>)
    requires Lists(totals, us) && b.le !in totals && NaN !in totals && !b.le.NaN?
    ensures Lists(totals[b.le := b.count], vs)
  {
    var i := |us|;
    while i > 0 && Less(b.le, us[i - 1].le)
      invariant 0 <= i <= |us|
      invariant forall j :: i <= j < |us| ==> Less(b.le, us[j].le)
    {
      i := i - 1;
    }
    vs := us[..i] + [b] + us[i..];
    assert forall j :: 0 <= j < i ==> Less(us[j].le, b.le) by {
      assert i > 0 ==> us[i - 1].le in totals;
    }
    InsertedLists(totals, us, b, i, vs);
  }

  lemma InsertedLists(totals: map<Float, real>, us: seq<Bucket>, b: Bucket, i: nat, vs: seq<Bucket>)
    requires Lists(totals, us) && b.le !in totals && i <= |us|
    requires vs == us[..i] + [b] + us[i..]
    requires forall j :: 0 <= j < i ==> Less(us[j].le, b.le)
    requires forall j :: i <= j < |us| ==> Less(b.le, us[j].le)
    ensures Lists(totals[b.le := b.count], vs)
  {
    InsertedIncreases(us, b, i, vs);
    InsertedTotals(totals, us, b, i, vs);
    EachIsListed(totals, totals[b.le := b.count], us, b, i, vs);
  }

  lemma InsertedTotals(totals: map<Float, real>, us: seq<Bucket>, b: Bucket, i: nat, vs: seq<Bucket>)
    requires Lists(totals, us) && b.le !in totals && i <= |us| && vs == us[..i] + [b] + us[i..]
    ensures
      var more := totals[b.le := b.count];
      forall j :: 0 <= j < |vs| ==> vs[j].le in more && vs[j].count == more[vs[j].le]
  {
    var more := totals[b.le := b.count];
    forall j | 0 <= j < |vs|
      ensures vs[j].le in more && vs[j].count == more[vs[j].le]
    {
      assert vs[j] == if j < i then us[j] else if j == i then b else us[j - 1];
    }
  }

  lemma InsertedIncreases(us: seq<Bucket>, b: Bucket, i: nat, vs: seq<Bucket>)
    requires Increasing(us) && i <= |us| && vs == us[..i] + [b] + us[i..]
    requires forall j :: 0 <= j < i ==> Less(us[j].le, b.le)
    requires forall j :: i <= j < |us| ==> Less(b.le, us[j].le)
    ensures Increasing(vs)
  {
  }

  lemma EachIsListed(totals: map<Float, real>, more: map<Float, real>, us: seq<Bucket>, b: Bucket, i: nat,
                     vs: seq<Bucket>)
    requires Lists(totals, us) && i <= |us| && vs == us[..i] + [b] + us[i..] && more == totals[b.le := b.count]
    ensures forall le :: le in more ==> exists k :: 0 <= k < |vs| && vs[k].le == le
  {
    forall le | le in more
      ensures exists k :: 0 <= k < |vs| && vs[k].le == le
    {
      if le == b.le {
        assert vs[i].le == le;
      } else {
        var k :| 0 <= k < |us| && us[k].le == le;
        assert vs[if k < i then k else k + 1].le == le;
      }
    }
  }

  lemma ClampedNext(us: seq<Bucket>, i: nat)
    requires 0 < i < |us|
    ensures
      var init := Clamped(us[..i]);
      Clamped(us[..i + 1]) == init + [us[i].(count := Max(us[i].count, init[i - 1].count))]
  {
    assert us[..i + 1][..i] == us[..i];
  }

  /** Clamps in place, from the second bucket on. */
  method Clamp(out: array<Bucket>)
    modifies out
    ensures out[..] == Clamped(old(out[..]))
  {
    ghost var us := out[..];
    if out.Length == 0 {
      return;
    }
    var i := 1;
    while i < out.Length
      invariant 1 <= i <= out.Length
      invariant out[..i] == Clamped(us[..i])
      invariant forall k :: i <= k < out.Length ==> out[k] == us[k]
    {
      ClampedNext(us, i);
      assert out[i] == us[i] && out[i - 1] == Clamped(us[..i])[i - 1];
      if out[i].count < out[i - 1].count {
        out[i] := out[i].(count := out[i - 1].count);
      }
      i := i + 1;
    }
    assert us[..out.Length] == us;
    assert out[..out.Length] == out[..];
  }

  lemma {:induction false} TotalsHaveOrderedKeys(pv: ValueParser, raw: seq<Sample>)
    requires Countable(raw)
    ensures NaN !in Totals(pv, raw)
  {
    if raw != [] {
      TotalsHaveOrderedKeys(pv, raw[..|raw| - 1]);
    }
  }

  /** What a family's selected bucket series merge to. */
  ghost predicate MergesTo(pv: ValueParser, raw: seq<Sample>, bs: seq<Bucket>)
    requires Countable(raw)
  {
    exists us: seq<Bucket> :: Lists(Totals(pv, raw), us) && bs == Clamped(us)
  }

  lemma MergingIsDeterministic(pv: ValueParser, raw: seq<Sample>, a: seq<Bucket>, b: seq<Bucket>)
    requires Countable(raw) && MergesTo(pv, raw, a) && MergesTo(pv, raw, b)
    ensures a == b
  {
    var us :| Lists(Totals(pv, raw), us) && a == Clamped(us);
    var vs :| Lists(Totals(pv, raw), vs) && b == Clamped(vs);
    ListingIsUnique(Totals(pv, raw), us, vs);
  }

  lemma MergedIsCumulative(pv: ValueParser, raw: seq<Sample>, bs: seq<Bucket>)
    requires Countable(raw) && MergesTo(pv, raw, bs)
    ensures Increasing(bs) && NonDecreasing(bs)
    ensures NegInf !in Totals(pv, raw) ==> Cumulative(bs)
  {
    var us: seq<Bucket> :| Lists(Totals(pv, raw), us) && bs == Clamped(us);
    TotalsHaveOrderedKeys(pv, raw);
    ClampedIsOrdered(us);
    forall i | 0 <= i < |us| && NegInf !in Totals(pv, raw)
      ensures us[i].le.Finite? || us[i].le.PosInf?
    {
      assert us[i].le in Totals(pv, raw);
    }
  }

  method Merge(pv: ValueParser, raw: seq<Sample>) returns (bs: seq<Bucket>)
    requires Countable(raw)
    ensures MergesTo(pv, raw, bs)
  {
    var byLE := SumByBoundary(pv, raw);
    TotalsHaveOrderedKeys(pv, raw);
    var us := SortedBuckets(byLE);
    var out := new Bucket[|us|](i requires 0 <= i < |us| => us[i]);
    assert out[..] == us;
    Clamp(out);
    bs := out[..];
  }

  /** The samples of a family's bucket series that match the wanted labels. */
  function Select(mf: Families, name: string, want: Labels): seq<Sample> {
    Matching(Named(mf.samples, name), want)
  }

  function Matching(samples: seq<Sample>, want: Labels): seq<Sample> {
    Filter(samples, Wanted(want))
  }

  function Wanted(want: Labels): Sample -> bool {
    (s: Sample) => Matches(s.labels, want)
  }

  /** The q-th quantile of a histogram family, aggregated over every matching series. */
  method FamilyQuantile(pv: ValueParser, mf: Families, family: string, q: real, want: Labels)
    returns (r: Option<real>)
    requires Countable(Select(mf, family + "_bucket", want))
    requires NegInf !in Totals(pv, Select(mf, family + "_bucket", want))
    ensures forall bs: seq<Bucket> :: MergesTo(pv, Select(mf, family + "_bucket", want), bs) ==>
      Arithmetical(bs) && r == Estimate(bs, q) && IsAnswer(bs, q, r)
  {
    var raw := Select(mf, family + "_bucket", want);
    var bs := Merge(pv, raw);
    MergedIsCumulative(pv, raw, bs);
    EstimateIsPinned(bs, q);
    forall other | MergesTo(pv, raw, other)
      ensures other == bs
    {
      MergingIsDeterministic(pv, raw, other, bs);
    }
    if q <= 0.0 || q >= 1.0 || |bs| == 0 {
      return None;
    }
    var total := bs[|bs| - 1].count;
    if total <= 0.0 {
      return None;
    }
    r := AnswerAt(bs, Rank(q, total));
  }

  /** Interpolates in the bucket the search finds, or walks down to a finite boundary. */
  method AnswerAt(bs: seq<Bucket>, rank: real) returns (r: Option<real>)
    requires Cumulative(bs) && bs != []
    ensures r == EstimateAt(bs, rank)
  {
    var idx := Landing(bs, rank);
    if bs[idx].le.Finite? {
      return Interpolate(bs, idx, rank);
    }
    var i := |bs|;
    while i > 0
      invariant 0 <= i <= |bs|
      invariant LargestFinite(bs[..i]) == LargestFinite(bs)
    {
      i := i - 1;
      assert bs[..i + 1][..i] == bs[..i];
      if bs[i].le.Finite? {
        return Some(bs[i].le.r);
      }
    }
    return None;
  }

  /**
    The three percentiles the vLLM adapter takes from one histogram are measured
    together or not at all, and are in order.
    */
  lemma PercentilesAreOrdered(pv: ValueParser, raw: seq<Sample>, bs: seq<Bucket>)
    requires Countable(raw) && NegInf !in Totals(pv, raw) && MergesTo(pv, raw, bs) && StartsForward(bs)
    ensures Arithmetical(bs)
    ensures
      var p50, p95, p99 := Estimate(bs, 0.50), Estimate(bs, 0.95), Estimate(bs, 0.99);
      && (p50.Some? <==> p95.Some?) && (p95.Some? <==> p99.Some?)
      && (p50.Some? ==> p50.value * 1000.0 <= p95.value * 1000.0 <= p99.value * 1000.0)
  {
    MergedIsCumulative(pv, raw, bs);
    DefinednessIgnoresQ(bs, 0.50);
    DefinednessIgnoresQ(bs, 0.95);
    DefinednessIgnoresQ(bs, 0.99);
    if Estimate(bs, 0.50).Some? {
      EstimateIsMonotone(bs, 0.50, 0.95);
      EstimateIsMonotone(bs, 0.95, 0.99);
    }
  }
}
