/**
  The whole path of a latency: observations recorded in any number of histograms, printed
  as exposition text, parsed, merged and interpolated.
  */
module Pipeline {
  import opened Telemetry
  import opened Text
  import opened Seqs
  import opened PromText
  import opened Quantile
  import opened Buckets
  import opened Exposition
  import opened Histogram
  import opened Accuracy

  /** A piece of a page: a series of the family, or a line of anything else. */
  datatype Block = Own(r: Recorded) | Foreign(e: Entry)

  function PageEntries(format: Format, bounds: seq<real>, blocks: seq<Block>, name: string): seq<Entry> {
    if blocks == [] then []
    else
      PageEntries(format, bounds, blocks[..|blocks| - 1], name) +
      BlockEntries(format, bounds, blocks[|blocks| - 1], name)
  }

  function BlockEntries(format: Format, bounds: seq<real>, b: Block, name: string): seq<Entry> {
    match b
    case Own(r) => Rendered(format, bounds, r, name)
    case Foreign(e) => [e]
  }

  /** The series of the family whose labels are the wanted ones. */
  function Selected(blocks: seq<Block>, want: Labels): seq<Recorded> {
    if blocks == [] then [] else Selected(blocks[..|blocks| - 1], want) + SelectedOf(blocks[|blocks| - 1], want)
  }

  function SelectedOf(b: Block, want: Labels): seq<Recorded> {
    match b
    case Own(r) => if Matches(WithLabels(map[], r.labels), want) then [r] else []
    case Foreign(_) => []
  }

  /** The rest of a page may hold anything but further buckets of the series asked for. */
  predicate BlockOk(pv: ValueParser, b: Block, name: string, want: Labels) {
    match b
    case Own(r) => KeysOk(r.labels)
    case Foreign(e) =>
      && EntryOk(pv, e)
      && (Meaning(pv, e).Series? && Meaning(pv, e).sample.name == name + "_bucket" ==>
            !Matches(Meaning(pv, e).sample.labels, want))
  }

  predicate BlocksOk(pv: ValueParser, blocks: seq<Block>, name: string, want: Labels) {
    forall i :: 0 <= i < |blocks| ==> BlockOk(pv, blocks[i], name, want)
  }

  // ---------------------------------------------------------------------------
  // What the printed lines mean
  // ---------------------------------------------------------------------------

  ghost predicate EntriesOk(pv: ValueParser, entries: seq<Entry>) {
    forall i :: 0 <= i < |entries| ==> EntryOk(pv, entries[i])
  }

  lemma BothOk(pv: ValueParser, a: seq<Entry>, b: seq<Entry>)
    requires EntriesOk(pv, a) && EntriesOk(pv, b)
    ensures EntriesOk(pv, a + b)
  {
  }

  lemma {:induction false} MeantConcat(pv: ValueParser, a: seq<Entry>, b: seq<Entry>, name: string)
    requires EntriesOk(pv, a) && EntriesOk(pv, b)
    ensures EntriesOk(pv, a + b)
    ensures Meant(pv, a + b, name) == Meant(pv, a, name) + Meant(pv, b, name)
    decreases |a|
  {
    BothOk(pv, a, b);
    if a == [] {
      ConcatNothing(b);
      ConcatNothing(Meant(pv, b, name));
    } else {
      MeantConcat(pv, a[1..], b, name);
      TailConcat(a, b);
      Associate(Contribution(Meaning(pv, a[0]), name), Meant(pv, a[1..], name), Meant(pv, b, name));
    }
  }

  lemma Suffixed(name: string, suffix: string)
    requires ValidMetricName(name) && suffix in {"_bucket", "_count", "_sum"}
    ensures ValidMetricName(name + suffix)
    ensures suffix != "_bucket" ==> name + suffix != name + "_bucket"
  {
  }

  lemma BucketEntryIsRead(pv: ValueParser, format: Format, bounds: seq<real>, r: Recorded, name: string, i: nat)
    requires FormatOk(pv, format, bounds) && ValidMetricName(name) && KeysOk(r.labels)
    ensures EntryOk(pv, BucketEntry(format, bounds, r.obs, name, r.labels, i))
    ensures Meaning(pv, BucketEntry(format, bounds, r.obs, name, r.labels, i)) ==
            Series(BucketSample(format, bounds, r, name, i))
  {
  }

  lemma {:induction false} BucketEntriesAreRead(pv: ValueParser, format: Format, bounds: seq<real>, r: Recorded,
                                                name: string, entries: seq<Entry>, samples: seq<Sample>, from: nat)
    requires FormatOk(pv, format, bounds) && ValidMetricName(name) && KeysOk(r.labels)
    requires |entries| == |samples|
    requires forall i :: 0 <= i < |entries| ==>
      entries[i] == BucketEntry(format, bounds, r.obs, name, r.labels, from + i) &&
      samples[i] == BucketSample(format, bounds, r, name, from + i)
    ensures EntriesOk(pv, entries)
    ensures Meant(pv, entries, name + "_bucket") == samples
    decreases |entries|
  {
    if entries != [] {
      BucketEntryIsRead(pv, format, bounds, r, name, from);
      BucketEntriesAreRead(pv, format, bounds, r, name, entries[1..], samples[1..], from + 1);
      assert EntryOk(pv, entries[0]) && Contribution(Meaning(pv, entries[0]), name + "_bucket") == [samples[0]];
      HeadOk(pv, entries);
      assert samples == [samples[0]] + samples[1..];
    }
  }

  lemma HeadOk(pv: ValueParser, entries: seq<Entry>)
    requires entries != [] && EntryOk(pv, entries[0]) && EntriesOk(pv, entries[1..])
    ensures EntriesOk(pv, entries)
  {
  }

  lemma TailIsRead(pv: ValueParser, format: Format, bounds: seq<real>, r: Recorded, name: string)
    requires FormatOk(pv, format, bounds) && ValidMetricName(name) && KeysOk(r.labels)
    ensures EntriesOk(pv, CountAndSum(format, r, name))
    ensures Meant(pv, CountAndSum(format, r, name), name + "_bucket") == []
  {
    var a, b := CountAndSum(format, r, name)[0], CountAndSum(format, r, name)[1];
    Suffixed(name, "_count");
    Suffixed(name, "_sum");
    assert EntryOk(pv, a) && EntryOk(pv, b);
    OfAnotherName(pv, a, name + "_bucket");
    OfAnotherName(pv, b, name + "_bucket");
    MeantConcat(pv, [a], [b], name + "_bucket");
    assert [a] + [b] == [a, b];
  }

  /** One printed series also says how many observations it has and what they add up to. */
  lemma CountAndSumAreRead(pv: ValueParser, format: Format, bounds: seq<real>, r: Recorded, name: string)
    requires FormatOk(pv, format, bounds) && ValidMetricName(name) && KeysOk(r.labels)
    ensures EntriesOk(pv, Rendered(format, bounds, r, name))
    ensures
      var rendered, labels := Rendered(format, bounds, r, name), WithLabels(map[], r.labels);
      && Meant(pv, rendered, name + "_count") == [Sample(name + "_count", labels, Finite(|r.obs| as real))]
      && Meant(pv, rendered, name + "_sum") == [Sample(name + "_sum", labels, pv(format.sum(r.sum)).value)]
  {
    NamesHaveNoNewline(name);
    RenderedIsRead(pv, format, bounds, r, name);
    TotalsAreRead(pv, format, bounds, r, name, "_count");
    TotalsAreRead(pv, format, bounds, r, name, "_sum");
  }

  lemma TotalsAreRead(pv: ValueParser, format: Format, bounds: seq<real>, r: Recorded, name: string, suffix: string)
    requires FormatOk(pv, format, bounds) && ValidMetricName(name) && KeysOk(r.labels) && suffix in {"_count", "_sum"}
    ensures EntriesOk(pv, Rendered(format, bounds, r, name))
    ensures Meant(pv, Rendered(format, bounds, r, name), name + suffix) ==
            [Sample(name + suffix, WithLabels(map[], r.labels),
                    if suffix == "_count" then Finite(|r.obs| as real) else pv(format.sum(r.sum)).value)]
  {
    var head := [Comment("TYPE " + name + " histogram")];
    var mid := BucketEntries(format, bounds, r.obs, name, r.labels);
    var tail := CountAndSum(format, r, name);
    NamesHaveNoNewline(name);
    RenderedIsRead(pv, format, bounds, r, name);
    BucketEntriesAreRead(pv, format, bounds, r, name, mid, BucketSamples(format, bounds, r, name), 0);
    CommentMeansNothing(pv, "TYPE " + name + " histogram", name + suffix);
    NoneOfThisName(pv, mid, name + "_bucket", name + suffix);
    TailTotals(pv, format, bounds, r, name, suffix);
    OnlyTheTail(pv, head, mid, tail, name + suffix);
  }

  lemma CommentMeansNothing(pv: ValueParser, text: string, name: string)
    requires '\n' !in text
    ensures EntriesOk(pv, [Comment(text)]) && Meant(pv, [Comment(text)], name) == []
  {
    assert [Comment(text)][1..] == [];
  }

  lemma OnlyTheTail(pv: ValueParser, head: seq<Entry>, mid: seq<Entry>, tail: seq<Entry>, name: string)
    requires EntriesOk(pv, head) && EntriesOk(pv, mid) && EntriesOk(pv, tail)
    requires Meant(pv, head, name) == [] && Meant(pv, mid, name) == []
    ensures EntriesOk(pv, head + mid + tail)
    ensures Meant(pv, head + mid + tail, name) == Meant(pv, tail, name)
  {
    MeantConcat(pv, head, mid, name);
    MeantConcat(pv, head + mid, tail, name);
  }

  lemma {:induction false} NoneOfThisName(pv: ValueParser, entries: seq<Entry>, name: string, other: string)
    requires EntriesOk(pv, entries) && name != other
    requires forall i :: 0 <= i < |entries| ==> entries[i].Labelled? && entries[i].name == name
    ensures Meant(pv, entries, other) == []
    decreases |entries|
  {
    if entries != [] {
      NoneOfThisName(pv, entries[1..], name, other);
    }
  }

  lemma TailTotals(pv: ValueParser, format: Format, bounds: seq<real>, r: Recorded, name: string, suffix: string)
    requires FormatOk(pv, format, bounds) && ValidMetricName(name) && KeysOk(r.labels) && suffix in {"_count", "_sum"}
    ensures EntriesOk(pv, CountAndSum(format, r, name))
    ensures name + suffix != name + "_bucket"
    ensures Meant(pv, CountAndSum(format, r, name), name + suffix) ==
            [Sample(name + suffix, WithLabels(map[], r.labels),
                    if suffix == "_count" then Finite(|r.obs| as real) else pv(format.sum(r.sum)).value)]
  {
    var a, b := CountAndSum(format, r, name)[0], CountAndSum(format, r, name)[1];
    Suffixed(name, "_count");
    Suffixed(name, "_sum");
    assert a.name[|name|..] == "_count" && b.name[|name|..] == "_sum";
    TwoSeries(pv, a, b);
  }

  lemma TwoSeries(pv: ValueParser, a: Entry, b: Entry)
    requires a.Labelled? && b.Labelled? && EntryOk(pv, a) && EntryOk(pv, b) && a.name != b.name
    ensures EntriesOk(pv, [a, b])
    ensures Meant(pv, [a, b], a.name) == [Sample(a.name, WithLabels(map[], a.labels), pv(a.value).value)]
    ensures Meant(pv, [a, b], b.name) == [Sample(b.name, WithLabels(map[], b.labels), pv(b.value).value)]
  {
    assert [a] + [b] == [a, b];
    EntryMeans(pv, a, a.name);
    EntryMeans(pv, b, a.name);
    EntryMeans(pv, a, b.name);
    EntryMeans(pv, b, b.name);
    MeantConcat(pv, [a], [b], a.name);
    MeantConcat(pv, [a], [b], b.name);
  }

  lemma EntryMeans(pv: ValueParser, e: Entry, name: string)
    requires e.Labelled? && EntryOk(pv, e)
    ensures Meant(pv, [e], name) ==
            if e.name == name then [Sample(name, WithLabels(map[], e.labels), pv(e.value).value)] else []
  {
    assert [e][1..] == [];
  }

  lemma OfAnotherName(pv: ValueParser, e: Entry, name: string)
    requires e.Labelled? && EntryOk(pv, e) && e.name != name
    ensures Meant(pv, [e], name) == []
  {
  }

  /** One printed series contributes its bucket samples to the family, in order. */
  lemma RenderedIsRead(pv: ValueParser, format: Format, bounds: seq<real>, r: Recorded, name: string)
    requires FormatOk(pv, format, bounds) && ValidMetricName(name) && KeysOk(r.labels) && '\n' !in name
    ensures EntriesOk(pv, Rendered(format, bounds, r, name))
    ensures Meant(pv, Rendered(format, bounds, r, name), name + "_bucket") == BucketSamples(format, bounds, r, name)
  {
    var head := [Comment("TYPE " + name + " histogram")];
    CommentMeansNothing(pv, "TYPE " + name + " histogram", name + "_bucket");
    BucketsAreRead(pv, format, bounds, r, name);
    TailIsRead(pv, format, bounds, r, name);
    OnlyTheMiddle(pv, head, BucketEntries(format, bounds, r.obs, name, r.labels), CountAndSum(format, r, name),
                  name + "_bucket");
  }

  lemma BucketsAreRead(pv: ValueParser, format: Format, bounds: seq<real>, r: Recorded, name: string)
    requires FormatOk(pv, format, bounds) && ValidMetricName(name) && KeysOk(r.labels)
    ensures EntriesOk(pv, BucketEntries(format, bounds, r.obs, name, r.labels))
    ensures Meant(pv, BucketEntries(format, bounds, r.obs, name, r.labels), name + "_bucket") ==
            BucketSamples(format, bounds, r, name)
  {
    BucketEntriesAreRead(pv, format, bounds, r, name, BucketEntries(format, bounds, r.obs, name, r.labels),
                         BucketSamples(format, bounds, r, name), 0);
  }

  lemma OnlyTheMiddle(pv: ValueParser, head: seq<Entry>, mid: seq<Entry>, tail: seq<Entry>, name: string)
    requires EntriesOk(pv, head) && EntriesOk(pv, mid) && EntriesOk(pv, tail)
    requires Meant(pv, head, name) == [] && Meant(pv, tail, name) == []
    ensures EntriesOk(pv, head + mid + tail)
    ensures Meant(pv, head + mid + tail, name) == Meant(pv, mid, name)
  {
    MeantConcat(pv, head, mid, name);
    MeantConcat(pv, head + mid, tail, name);
  }

  // ---------------------------------------------------------------------------
  // Selecting by label
  // ---------------------------------------------------------------------------

  lemma MatchesWithoutLe(labels: Labels, want: Labels, le: string)
    requires "le" !in want
    ensures Matches(labels["le" := le], want) <==> Matches(labels, want)
  {
  }

  /** A series is selected with all its buckets or with none. */
  lemma SeriesIsSelected(format: Format, bounds: seq<real>, r: Recorded, name: string, want: Labels)
    requires "le" !in want
    ensures Filter(BucketSamples(format, bounds, r, name), Wanted(want)) ==
            if Matches(WithLabels(map[], r.labels), want) then BucketSamples(format, bounds, r, name) else []
  {
    var samples := BucketSamples(format, bounds, r, name);
    forall i | 0 <= i < |samples|
      ensures Wanted(want)(samples[i]) <==> Matches(WithLabels(map[], r.labels), want)
    {
      WithLabelsAppend(map[], r.labels, "le", LeText(format, bounds, i));
      MatchesWithoutLe(WithLabels(map[], r.labels), want, LeText(format, bounds, i));
    }
    FilterAllOrNone(samples, Wanted(want));
  }

  lemma BlockIsSelected(pv: ValueParser, format: Format, bounds: seq<real>, b: Block, name: string, want: Labels)
    requires FormatOk(pv, format, bounds) && ValidMetricName(name) && "le" !in want
    requires BlockOk(pv, b, name, want)
    ensures EntriesOk(pv, BlockEntries(format, bounds, b, name))
    ensures Filter(Meant(pv, BlockEntries(format, bounds, b, name), name + "_bucket"), Wanted(want)) ==
            FamilySamples(format, bounds, SelectedOf(b, want), name)
  {
    match b
    case Own(r) =>
      NamesHaveNoNewline(name);
      RenderedIsRead(pv, format, bounds, r, name);
      SeriesIsSelected(format, bounds, r, name, want);
      OneSeries(format, bounds, r, name);
    case Foreign(e) =>
      assert [e][1..] == [];
      assert Meant(pv, [e], name + "_bucket") == Contribution(Meaning(pv, e), name + "_bucket");
      FilterAllOrNone(Meant(pv, [e], name + "_bucket"), Wanted(want));
  }

  lemma OneSeries(format: Format, bounds: seq<real>, r: Recorded, name: string)
    ensures FamilySamples(format, bounds, [r], name) == BucketSamples(format, bounds, r, name)
  {
    assert [r][..0] == [];
    ConcatNothing(BucketSamples(format, bounds, r, name));
  }

  lemma {:induction false} FamilyConcat(format: Format, bounds: seq<real>, a: seq<Recorded>, b: seq<Recorded>,
                                        name: string)
    ensures FamilySamples(format, bounds, a + b, name) ==
            FamilySamples(format, bounds, a, name) + FamilySamples(format, bounds, b, name)
  {
    if b == [] {
      ConcatNothing(a);
      ConcatNothing(FamilySamples(format, bounds, a, name));
    } else {
      var init, last := b[..|b| - 1], BucketSamples(format, bounds, b[|b| - 1], name);
      InitConcat(a, b);
      FamilyConcat(format, bounds, a, init, name);
      Associate(FamilySamples(format, bounds, a, name), FamilySamples(format, bounds, init, name), last);
    }
  }

  /** Of everything a page holds, the selector leaves the buckets of the matching series. */
  lemma {:induction false} PageIsSelected(pv: ValueParser, format: Format, bounds: seq<real>, blocks: seq<Block>,
                                          name: string, want: Labels)
    requires FormatOk(pv, format, bounds) && ValidMetricName(name) && "le" !in want
    requires BlocksOk(pv, blocks, name, want)
    ensures EntriesOk(pv, PageEntries(format, bounds, blocks, name))
    ensures Filter(Meant(pv, PageEntries(format, bounds, blocks, name), name + "_bucket"), Wanted(want)) ==
            FamilySamples(format, bounds, Selected(blocks, want), name)
  {
    if blocks != [] {
      var init, last := blocks[..|blocks| - 1], blocks[|blocks| - 1];
      var a, b := PageEntries(format, bounds, init, name), BlockEntries(format, bounds, last, name);
      PageIsSelected(pv, format, bounds, init, name, want);
      assert BlockOk(pv, last, name, want);
      BlockIsSelected(pv, format, bounds, last, name, want);
      MeantConcat(pv, a, b, name + "_bucket");
      FilterConcat(Meant(pv, a, name + "_bucket"), Meant(pv, b, name + "_bucket"), Wanted(want));
      FamilyConcat(format, bounds, Selected(init, want), SelectedOf(last, want), name);
    }
  }

  // ---------------------------------------------------------------------------
  // The main theorem
  // ---------------------------------------------------------------------------

  /** Nothing on the page is skipped, and asking for the family finds the matching series. */
  lemma FamilyPageIsRead(pv: ValueParser, format: Format, bounds: seq<real>, blocks: seq<Block>,
                         name: string, want: Labels, mf: Families)
    requires FormatOk(pv, format, bounds) && ValidMetricName(name) && "le" !in want
    requires BlocksOk(pv, blocks, name, want)
    requires Holds(mf, pv, Lines(Page(PageEntries(format, bounds, blocks, name))))
    ensures mf.linesSkipped == 0
    ensures Select(mf, name + "_bucket", want) == FamilySamples(format, bounds, Selected(blocks, want), name)
  {
    PageIsSelected(pv, format, bounds, blocks, name, want);
    PageMeans(pv, PageEntries(format, bounds, blocks, name), name + "_bucket", mf);
  }

  /** What is parsed from a printed page is what its entries mean. */
  lemma PageMeans(pv: ValueParser, entries: seq<Entry>, name: string, mf: Families)
    requires EntriesOk(pv, entries) && Holds(mf, pv, Lines(Page(entries)))
    ensures mf.linesSkipped == 0 && Named(mf.samples, name) == Meant(pv, entries, name)
  {
    assert HoldsAt(mf, pv, Lines(Page(entries)), name);
    PageIsRead(pv, entries, name);
  }

  /**
    Record any non-negative observations in any number of histograms with the same
    boundaries, print them on a page among anything else, parse the page and ask for a
    quantile over the series that match: the answer lies in the same bucket as the
    ceil(q n)-th smallest of all their observations, as far into it as q n goes into the
    observations there, or is the largest boundary when that one exceeds every boundary.
    */
  lemma ScrapedQuantileIsAccurate(pv: ValueParser, format: Format, bounds: seq<real>, blocks: seq<Block>,
                                  name: string, want: Labels, mf: Families, bs: seq<Bucket>,
                                  q: real, k: nat, x: real)
    requires FormatOk(pv, format, bounds) && ValidMetricName(name) && "le" !in want
    requires IncreasingBounds(bounds) && bounds != [] && bounds[0] > 0.0
    requires BlocksOk(pv, blocks, name, want)
    requires Holds(mf, pv, Lines(Page(PageEntries(format, bounds, blocks, name))))
    requires
      var obs := AllObs(Selected(blocks, want));
      && obs != [] && (forall i :: 0 <= i < |obs| ==> obs[i] >= 0.0)
      && 0.0 < q < 1.0 && IsRank(q, |obs|, k) && IsKthSmallest(obs, k, x)
    ensures mf.linesSkipped == 0
    ensures Countable(Select(mf, name + "_bucket", want))
    ensures NegInf !in Totals(pv, Select(mf, name + "_bucket", want))
    ensures MergesTo(pv, Select(mf, name + "_bucket", want), bs) ==>
      && Arithmetical(bs) && Estimate(bs, q).Some?
      && var v := Estimate(bs, q).value;
         if x > bounds[|bounds| - 1] then v == bounds[|bounds| - 1]
         else exists i :: 0 <= i < |bounds| && InBucket(bounds, i, x) && InBucket(bounds, i, v) &&
                          Apportioned(bounds, AllObs(Selected(blocks, want)), i, q, v)
  {
    var family := Selected(blocks, want);
    FamilyPageIsRead(pv, format, bounds, blocks, name, want, mf);
    FamilyMergesToExactBuckets(pv, format, bounds, family, name);
    if MergesTo(pv, Select(mf, name + "_bucket", want), bs) {
      MergingIsDeterministic(pv, FamilySamples(format, bounds, family, name), bs,
                             ExactBuckets(bounds, AllObs(family)));
      EstimateIsAccurate(bounds, AllObs(family), q, k, x);
      ExactBucketsAreCumulative(bounds, AllObs(family));
    }
  }

  // ---------------------------------------------------------------------------
  // A page whose quantiles come out in the wrong order
  // ---------------------------------------------------------------------------

  function NegativeText(): string {
    "x_bucket{le=\"-5\"} 1" + "\n" +
    "x_bucket{le=\"+Inf\"} 1" + "\n"
  }

  function NegativeEntries(): seq<Entry> {
    [Labelled("x_bucket", [("le", "-5")], "1"), Labelled("x_bucket", [("le", "+Inf")], "1")]
  }

  function NegativeBuckets(): seq<Bucket> {
    [Bucket(Finite(-5.0), 1.0), Bucket(PosInf, 1.0)]
  }

  predicate ReadsNegative(pv: ValueParser) {
    pv("-5") == Some(Finite(-5.0)) && pv("+Inf") == Some(PosInf) && pv("1") == Some(Finite(1.0))
  }

  /** One observation at or below -5: the first quartile is reported as -1.25, the third as -3.75. */
  lemma NegativeBoundaryTurnsQuantilesAround(pv: ValueParser, mf: Families, bs: seq<Bucket>)
    requires ReadsNegative(pv)
    requires Holds(mf, pv, Lines(NegativeText()))
    ensures Countable(Select(mf, "x_bucket", map[]))
    ensures MergesTo(pv, Select(mf, "x_bucket", map[]), bs) ==>
      && bs == NegativeBuckets() && Arithmetical(bs)
      && Estimate(bs, 0.25) == Some(-1.25) && Estimate(bs, 0.75) == Some(-3.75)
  {
    NegativeIsSelected(pv, mf);
    NegativeMerges(pv);
    if MergesTo(pv, NegativeSamples(), bs) {
      MergingIsDeterministic(pv, NegativeSamples(), bs, NegativeBuckets());
      NegativeEstimates();
    }
  }

  lemma NegativeIsSelected(pv: ValueParser, mf: Families)
    requires ReadsNegative(pv) && Holds(mf, pv, Lines(NegativeText()))
    ensures Select(mf, "x_bucket", map[]) == NegativeSamples()
  {
    NegativePage();
    NegativeIsMeant(pv);
    PageMeans(pv, NegativeEntries(), "x_bucket", mf);
    FilterAllOrNone(NegativeSamples(), Wanted(map[]));
  }

  lemma NegativePage()
    ensures Page(NegativeEntries()) == NegativeText()
  {
    var a, b := NegativeEntries()[0], NegativeEntries()[1];
    TwoLines(a, b);
    BucketLine("-5");
    BucketLine("+Inf");
    NegativeLines(LineOf(a), LineOf(b));
  }

  lemma NegativeLines(a: string, b: string)
    requires a == "x_bucket{le=\"" + "-5" + "\"} 1" && b == "x_bucket{le=\"" + "+Inf" + "\"} 1"
    ensures a + "\n" + (b + "\n") == NegativeText()
  {
    assert a == "x_bucket{le=\"-5\"} 1" && b == "x_bucket{le=\"+Inf\"} 1";
    assert a + "\n" + (b + "\n") == a + "\n" + b + "\n";
  }

  lemma TwoLines(a: Entry, b: Entry)
    ensures Page([a, b]) == LineOf(a) + "\n" + (LineOf(b) + "\n")
  {
    var entries, last := [a, b], [b];
    assert entries[1..] == last && last[1..] == [];
    assert Page(last) == LineOf(b) + "\n" + "";
    ConcatNothing(LineOf(b) + "\n");
    assert Page(entries) == LineOf(a) + "\n" + Page(last);
  }

  lemma BucketLine(le: string)
    requires le == "-5" || le == "+Inf"
    ensures LineOf(Labelled("x_bucket", [("le", le)], "1")) == "x_bucket{le=\"" + le + "\"} 1"
  {
    PlainEsc(le);
    assert Pair(("le", le)) == "le=\"" + le + "\"";
    assert "x_bucket" + "{" + ("le=\"" + le + "\"") + "} " + "1" == "x_bucket{le=\"" + le + "\"} 1";
  }

  lemma {:induction false} PlainEsc(v: string)
    requires forall i :: 0 <= i < |v| ==> v[i] !in {'\\', '"', '\n'}
    ensures Esc(v) == v
  {
    if v != "" {
      PlainEsc(v[1..]);
      assert [v[0]] + v[1..] == v;
    }
  }

  function NegativeSamples(): seq<Sample> {
    [Sample("x_bucket", map["le" := "-5"], Finite(1.0)), Sample("x_bucket", map["le" := "+Inf"], Finite(1.0))]
  }

  lemma NegativeIsMeant(pv: ValueParser)
    requires ReadsNegative(pv)
    ensures EntriesOk(pv, NegativeEntries())
    ensures Meant(pv, NegativeEntries(), "x_bucket") == NegativeSamples()
  {
    var a, b := NegativeEntries()[0], NegativeEntries()[1];
    assert EntryOk(pv, a) && EntryOk(pv, b);
    assert NegativeEntries()[1..] == [b] && [b][1..] == [];
    assert a.labels[1..] == [] && b.labels[1..] == [];
    assert Meant(pv, [b], "x_bucket") == [NegativeSamples()[1]];
  }

  lemma NegativeMerges(pv: ValueParser)
    requires ReadsNegative(pv)
    ensures Countable(NegativeSamples())
    ensures MergesTo(pv, NegativeSamples(), NegativeBuckets())
  {
    var raw, us := NegativeSamples(), NegativeBuckets();
    assert raw[..1][..0] == [] && raw[..1] == [raw[0]];
    var totals := Totals(pv, raw);
    assert Totals(pv, raw[..1]) == map[Finite(-5.0) := 1.0];
    assert totals == map[Finite(-5.0) := 1.0, PosInf := 1.0];
    assert us[0].le == Finite(-5.0) && us[1].le == PosInf;
    assert Lists(totals, us);
    ClampingCumulativeCounts(us);
  }

  lemma NegativeEstimates()
    ensures Arithmetical(NegativeBuckets())
    ensures Estimate(NegativeBuckets(), 0.25) == Some(-1.25)
    ensures Estimate(NegativeBuckets(), 0.75) == Some(-3.75)
  {
    var bs := NegativeBuckets();
    FallsInFirstBucket(bs, 0.25);
    FallsInFirstBucket(bs, 0.75);
  }
}
