/** The evaluation window of a rule: recent, Sustained and Trend of internal/recommender/recommender.go. */
module Window {
  import opened Telemetry
  import opened Sorting
  import opened TelemetryStore

  /** A trend looks back this many sustain windows, and needs this many samples. */
  const TREND_WINDOW := 3
  const MIN_TREND_SAMPLES := 6

  function NotBefore(window: Series, cutoff: int): nat -> bool {
    (i: nat) => i < |window| && window[i].timestamp >= cutoff
  }

  function Cutoff(window: Series, d: int): int
    requires window != []
  {
    window[|window| - 1].timestamp - d
  }

  /** Where the tail covering the last d begins; it includes the last sample before the cutoff. */
  function RecentStart(window: Series, d: int): (start: nat)
    ensures start <= |window|
  {
    if window == [] || d <= 0 then 0
    else
      var start := Search(|window|, NotBefore(window, Cutoff(window, d)));
      if start > 0 then start - 1 else 0
  }

  function Recent(window: Series, d: int): Series {
    window[RecentStart(window, d)..]
  }

  function Span(snaps: Series): int {
    if |snaps| < 2 then 0 else snaps[|snaps| - 1].timestamp - snaps[0].timestamp
  }

  /** Whether pred holds on every recent sample and the samples really cover the sustain window. */
  predicate Sustained(latest: Snapshot, window: Series, sustainFor: int, pred: Snapshot -> bool) {
    if sustainFor <= 0 then window != [] && pred(latest)
    else
      var recent := Recent(window, sustainFor);
      Span(recent) >= sustainFor && forall i :: 0 <= i < |recent| ==> pred(recent[i])
  }

  function SumOf(vs: seq<real>): real {
    if vs == [] then 0.0 else SumOf(vs[..|vs| - 1]) + vs[|vs| - 1]
  }

  function Values(snaps: Series, pick: Snapshot -> Metric): (vs: seq<real>)
    ensures |vs| == |snaps|
  {
    seq(|snaps|, i requires 0 <= i < |snaps| => pick(snaps[i]).value)
  }

  predicate AllMeasured(snaps: Series, pick: Snapshot -> Metric) {
    forall i :: 0 <= i < |snaps| ==> pick(snaps[i]).ok
  }

  function Mean(snaps: Series, pick: Snapshot -> Metric): Option<real> {
    if snaps == [] || !AllMeasured(snaps, pick) then None
    else Some(SumOf(Values(snaps, pick)) / |snaps| as real)
  }

  /** The loop that computes a mean while counting the measured samples. */
  method ComputeMean(snaps: Series, pick: Snapshot -> Metric) returns (r: Option<real>)
    ensures r == Mean(snaps, pick)
  {
    var sum, n := 0.0, 0;
    for i := 0 to |snaps|
      invariant 0 <= n <= i
      invariant n == i <==> AllMeasured(snaps[..i], pick)
      invariant n == i ==> sum == SumOf(Values(snaps[..i], pick))
    {
      assert snaps[..i + 1] == snaps[..i] + [snaps[i]];
      assert Values(snaps[..i + 1], pick)[..i] == Values(snaps[..i], pick);
      var m := pick(snaps[i]);
      if m.ok {
        sum := sum + m.value;
        n := n + 1;
      } else {
        assert !AllMeasured(snaps[..i + 1], pick) by {
          assert !pick(snaps[..i + 1][i]).ok;
        }
      }
    }
    assert snaps[..|snaps|] == snaps;
    return if n != |snaps| || n == 0 then None else Some(sum / n as real);
  }

  /** The mean of the last third of the trend window minus the mean of its first third. */
  function Trend(window: Series, sustainFor: int, pick: Snapshot -> Metric): Option<real> {
    TrendOver(Recent(window, sustainFor * TREND_WINDOW), pick)
  }

  function TrendOver(recent: Series, pick: Snapshot -> Metric): Option<real> {
    if |recent| < MIN_TREND_SAMPLES then None
    else
      var third := |recent| / 3;
      var early := Mean(recent[..third], pick);
      var late := Mean(recent[|recent| - third..], pick);
      if early == None || late == None then None else Some(late.value - early.value)
  }

  // ---------------------------------------------------------------------------
  // The bracketing sample
  // ---------------------------------------------------------------------------

  /**
    On a time-ordered window the tail is the shortest one that starts strictly before
    the cutoff, or the whole window when no sample lies before it.
    */
  lemma RecentBrackets(window: Series, d: int)
    requires TimeOrdered(window) && window != [] && d > 0
    ensures
      var start, cutoff := RecentStart(window, d), Cutoff(window, d);
      && start < |window|
      && (forall i :: start < i < |window| ==> window[i].timestamp >= cutoff)
      && (|| window[start].timestamp < cutoff
          || (start == 0 && forall i :: 0 <= i < |window| ==> window[i].timestamp >= cutoff))
  {
  }

  predicate IsLastBefore(window: Series, i: nat, cutoff: int)
    requires i < |window|
  {
    window[i].timestamp < cutoff && (i + 1 < |window| ==> window[i + 1].timestamp >= cutoff)
  }

  /** The tail is made of the samples from the cutoff on, and the last one before it. */
  lemma RecentAt(window: Series, d: int, i: nat)
    requires TimeOrdered(window) && i < |window| && d > 0
    ensures
      RecentStart(window, d) <= i <==>
        window[i].timestamp >= Cutoff(window, d) || IsLastBefore(window, i, Cutoff(window, d))
  {
  }

  lemma RecentSpans(window: Series, d: int)
    requires TimeOrdered(window) && window != [] && d > 0
    ensures Span(Recent(window, d)) >= d <==> Span(window) >= d
  {
  }

  lemma HoldsOnTail(window: Series, start: nat, pred: Snapshot -> bool)
    requires start <= |window|
    ensures (forall i :: 0 <= i < |window[start..]| ==> pred(window[start..][i])) <==>
            (forall i :: start <= i < |window| ==> pred(window[i]))
  {
    var tail := window[start..];
    assert forall i :: start <= i < |window| ==> window[i] == tail[i - start];
  }

  /** `Sustained` is exactly: the history spans the window, and pred held all through it. */
  lemma SustainedMeansHeldThroughout(latest: Snapshot, window: Series, d: int, pred: Snapshot -> bool)
    requires TimeOrdered(window) && window != [] && d > 0
    ensures Sustained(latest, window, d, pred) <==>
      && Span(window) >= d
      && forall i :: 0 <= i < |window| ==>
           (window[i].timestamp >= Cutoff(window, d) || IsLastBefore(window, i, Cutoff(window, d))) ==>
             pred(window[i])
  {
    RecentSpans(window, d);
    HoldsOnTail(window, RecentStart(window, d), pred);
    forall i | 0 <= i < |window|
      ensures RecentStart(window, d) <= i <==>
        window[i].timestamp >= Cutoff(window, d) || IsLastBefore(window, i, Cutoff(window, d))
    {
      RecentAt(window, d, i);
    }
  }

  lemma RecentReachesFurther(window: Series, d1: int, d2: int)
    requires TimeOrdered(window) && window != [] && 0 < d1 <= d2
    ensures RecentStart(window, d2) <= RecentStart(window, d1) < |window|
  {
  }

  /** Asking for a longer sustain window never makes a condition newly sustained. */
  lemma LongerIsHarder(latest: Snapshot, window: Series, d1: int, d2: int, pred: Snapshot -> bool)
    requires TimeOrdered(window) && 0 < d1 <= d2
    requires Sustained(latest, window, d2, pred)
    ensures Sustained(latest, window, d1, pred)
  {
    if window != [] {
      RecentReachesFurther(window, d1, d2);
      RecentSpans(window, d1);
      RecentSpans(window, d2);
      HoldsOnTail(window, RecentStart(window, d1), pred);
      HoldsOnTail(window, RecentStart(window, d2), pred);
    }
  }

  /**
    One scrape a minute with a sustain window of 45 seconds does fire: the sample before
    the cutoff is part of the window.
    */
  lemma SlowScrapesStillSustain(a: Snapshot, b: Snapshot, interval: int, d: int, pred: Snapshot -> bool)
    requires 0 < d <= interval && b.timestamp == a.timestamp + interval
    ensures Sustained(b, [a, b], d, pred) <==> pred(a) && pred(b)
  {
  }

  // ---------------------------------------------------------------------------
  // A trimmed series answers like the full history
  // ---------------------------------------------------------------------------

  lemma StartIgnoresTrimming(full: Series, kept: Series, d: int)
    requires TimeOrdered(full) && IsSuffix(kept, full) && d > 0 && Span(kept) > d
    ensures RecentStart(kept, d) <= |kept|
    ensures RecentStart(full, d) == |full| - |kept| + RecentStart(kept, d)
  {
  }

  /** As long as the retained series spans strictly more than d, trimming is invisible. */
  lemma RecentIgnoresTrimming(full: Series, kept: Series, d: int)
    requires TimeOrdered(full) && IsSuffix(kept, full) && d > 0 && Span(kept) > d
    ensures Recent(kept, d) == Recent(full, d)
  {
    StartIgnoresTrimming(full, kept, d);
    TailOfSuffix(full, kept, RecentStart(kept, d));
  }

  lemma TailOfSuffix(full: Series, kept: Series, a: nat)
    requires IsSuffix(kept, full) && a <= |kept|
    ensures kept[a..] == full[|full| - |kept| + a..]
  {
  }

  /** Hence Sustained and Trend do not notice retention either. */
  lemma RulesIgnoreTrimming(latest: Snapshot, full: Series, kept: Series, sustainFor: int,
                            pred: Snapshot -> bool, pick: Snapshot -> Metric)
    requires TimeOrdered(full) && IsSuffix(kept, full) && sustainFor > 0
    ensures Span(kept) > sustainFor ==>
      Sustained(latest, kept, sustainFor, pred) == Sustained(latest, full, sustainFor, pred)
    ensures Span(kept) > sustainFor * TREND_WINDOW ==>
      Trend(kept, sustainFor, pick) == Trend(full, sustainFor, pick)
  {
    if Span(kept) > sustainFor {
      RecentIgnoresTrimming(full, kept, sustainFor);
    }
    if Span(kept) > sustainFor * TREND_WINDOW {
      RecentIgnoresTrimming(full, kept, sustainFor * TREND_WINDOW);
    }
  }

  /** The same about what the store retains after any well-timed run. */
  lemma StoreAnswersLikeFullHistory(ops: seq<Op>, r: Retention, key: string, latest: Snapshot, sustainFor: int,
                                    pred: Snapshot -> bool, pick: Snapshot -> Metric)
    requires ops != [] && WellTimed(ops) && r.maxPerWorkload > 0 && sustainFor > 0
    requires key in Run(ops, r) && Span(Run(ops, r)[key]) > sustainFor
    ensures Sustained(latest, Run(ops, r)[key], sustainFor, pred) ==
            Sustained(latest, FullHistory(ops, key), sustainFor, pred)
    ensures Span(Run(ops, r)[key]) > sustainFor * TREND_WINDOW ==>
      Trend(Run(ops, r)[key], sustainFor, pick) == Trend(FullHistory(ops, key), sustainFor, pick)
  {
    StoreHoldsTheWindow(ops, r, key);
    assert TimeOrdered(FullHistory(ops, key));
    RulesIgnoreTrimming(latest, FullHistory(ops, key), Run(ops, r)[key], sustainFor, pred, pick);
  }
}
