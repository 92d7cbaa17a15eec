/** What Trend of internal/recommender/recommender.go says about a queue. */
module Trends {
  import opened Telemetry
  import opened Reals
  import opened TelemetryStore
  import opened Window

  /** The trend of the measured values of a window. */
  function TrendOf(vs: seq<real>): real
    requires |vs| >= MIN_TREND_SAMPLES
  {
    var third := |vs| / 3;
    Average(vs[|vs| - third..]) - Average(vs[..third])
  }

  function Average(vs: seq<real>): real
    requires vs != []
  {
    SumOf(vs) / |vs| as real
  }

  /** Both ends of the window are measured; the middle need not be. */
  predicate ThirdsMeasured(recent: Series, pick: Snapshot -> Metric) {
    var third := |recent| / 3;
    AllMeasured(recent[..third], pick) && AllMeasured(recent[|recent| - third..], pick)
  }

  /** There is a trend exactly when there are enough samples and both outer thirds are measured. */
  lemma TrendIsDefinedExactlyWhen(recent: Series, pick: Snapshot -> Metric)
    ensures TrendOver(recent, pick).Some? <==> |recent| >= 6 && ThirdsMeasured(recent, pick)
  {
  }

  /** Whenever there is a trend it is the trend of the values. */
  lemma TrendIsTrendOf(recent: Series, pick: Snapshot -> Metric)
    requires |recent| >= MIN_TREND_SAMPLES && ThirdsMeasured(recent, pick)
    ensures TrendOver(recent, pick) == Some(TrendOf(Values(recent, pick)))
  {
    var n, third, vs := |recent|, |recent| / 3, Values(recent, pick);
    assert Values(recent[..third], pick) == vs[..third];
    assert Values(recent[n - third..], pick) == vs[n - third..];
  }

  /**
    The trend of a time-ordered window is that of the samples within three sustain windows
    of the last one, and the one before those.
    */
  lemma TrendLooksBackThreeWindows(window: Series, start: nat, sustainFor: int, pick: Snapshot -> Metric)
    requires TimeOrdered(window) && start < |window| && sustainFor > 0
    requires
      var cutoff := window[|window| - 1].timestamp - 3 * sustainFor;
      && (start > 0 ==> window[start].timestamp < cutoff)
      && forall i :: start < i < |window| ==> window[i].timestamp >= cutoff
    ensures Trend(window, sustainFor, pick) == TrendOver(window[start..], pick)
  {
    RecentBrackets(window, sustainFor * TREND_WINDOW);
    assert Cutoff(window, sustainFor * TREND_WINDOW) == window[|window| - 1].timestamp - 3 * sustainFor;
    var found := RecentStart(window, sustainFor * TREND_WINDOW);
    assert found == start;
  }

  /**
    A window that reaches less far back than the trend looks is used whole, so samples
    that arrive fast enough have a trend however short they are retained.
    */
  lemma ShortHistoryHasTrend(window: Series, sustainFor: int, pick: Snapshot -> Metric)
    requires TimeOrdered(window) && sustainFor > 0 && Span(window) < 3 * sustainFor
    ensures Trend(window, sustainFor, pick) == TrendOver(window, pick)
    ensures Trend(window, sustainFor, pick).Some? <==>
      |window| >= MIN_TREND_SAMPLES && ThirdsMeasured(window, pick)
  {
    ShortHistoryIsUsedWhole(window, sustainFor * TREND_WINDOW);
    TrendIsDefinedExactlyWhen(window, pick);
  }

  lemma ShortHistoryIsUsedWhole(window: Series, d: int)
    requires TimeOrdered(window) && d > 0 && Span(window) < d
    ensures Recent(window, d) == window
  {
    if |window| >= 2 {
      RecentBrackets(window, d);
    }
  }

  // ---------------------------------------------------------------------------
  // Sums
  // ---------------------------------------------------------------------------

  lemma TimesNext(n: nat, g: real)
    ensures Times((n + 1) as real, g) == Times(n as real, g) + g
  {
  }

  lemma {:induction false} SumSplits(a: seq<real>, b: seq<real>)
    ensures SumOf(a + b) == SumOf(a) + SumOf(b)
  {
    if b == [] {
      assert a + b == a;
    } else {
      assert (a + b)[..|a + b| - 1] == a + b[..|b| - 1];
      SumSplits(a, b[..|b| - 1]);
    }
  }

  /** If each of b exceeds its partner in a by at least g, the sums differ by at least |a| g. */
  lemma {:induction false} SumsApart(a: seq<real>, b: seq<real>, g: real)
    requires |a| == |b| && forall i :: 0 <= i < |a| ==> b[i] - a[i] >= g
    ensures SumOf(b) - SumOf(a) >= Times(|a| as real, g)
  {
    if a != [] {
      var n := |a| - 1;
      SumsApart(a[..n], b[..n], g);
      assert b[n] - a[n] >= g;
      TimesNext(n, g);
    } else {
      assert Times(0.0, g) == 0.0;
    }
  }

  lemma DividesBack(n: nat, g: real, s: real)
    requires n > 0 && s >= Times(n as real, g)
    ensures s / n as real >= g
  {
  }

  lemma DifferenceOfQuotients(x: real, y: real, n: real)
    requires n > 0.0
    ensures x / n - y / n == (x - y) / n
  {
  }

  lemma AveragesApart(a: seq<real>, b: seq<real>, g: real)
    requires |a| == |b| > 0 && forall i :: 0 <= i < |a| ==> b[i] - a[i] >= g
    ensures Average(b) - Average(a) >= g
  {
    SumsApart(a, b, g);
    DividesBack(|a|, g, SumOf(b) - SumOf(a));
    DifferenceOfQuotients(SumOf(b), SumOf(a), |a| as real);
  }

  // ---------------------------------------------------------------------------
  // The trend
  // ---------------------------------------------------------------------------

  lemma {:induction false} Climbs(vs: seq<real>, g: real, i: nat, n: nat)
    requires i + n < |vs|
    requires forall k :: 0 <= k < |vs| - 1 ==> vs[k + 1] - vs[k] >= g
    ensures vs[i + n] - vs[i] >= Times(n as real, g)
  {
    if n == 0 {
      assert Times(0.0, g) == 0.0;
    } else {
      Climbs(vs, g, i, n - 1);
      TimesNext(n - 1, g);
      assert vs[i + n - 1 + 1] - vs[i + n - 1] >= g;
    }
  }

  /**
    Growth of at least g per sample shows as a trend of at least g times the distance
    between the thirds. With g = 0 a rising queue never has a negative trend.
    */
  lemma GrowthShows(vs: seq<real>, g: real)
    requires |vs| >= MIN_TREND_SAMPLES
    requires forall k :: 0 <= k < |vs| - 1 ==> vs[k + 1] - vs[k] >= g
    ensures TrendOf(vs) >= Times((|vs| - |vs| / 3) as real, g)
  {
    var n, third := |vs|, |vs| / 3;
    var early, late := vs[..third], vs[n - third..];
    forall i | 0 <= i < third
      ensures late[i] - early[i] >= Times((n - third) as real, g)
    {
      Climbs(vs, g, i, n - third);
    }
    AveragesApart(early, late, Times((n - third) as real, g));
  }

  lemma {:induction false} Falls(vs: seq<real>, i: nat, j: nat)
    requires i <= j < |vs|
    requires forall k :: 0 <= k < |vs| - 1 ==> vs[k + 1] <= vs[k]
    ensures vs[j] <= vs[i]
  {
    if i < j {
      Falls(vs, i, j - 1);
      assert vs[j - 1 + 1] <= vs[j - 1];
    }
  }

  /** A queue that never grows has no positive trend. */
  lemma DrainingNeverShowsGrowth(vs: seq<real>)
    requires |vs| >= MIN_TREND_SAMPLES
    requires forall k :: 0 <= k < |vs| - 1 ==> vs[k + 1] <= vs[k]
    ensures TrendOf(vs) <= 0.0
  {
    var n, third := |vs|, |vs| / 3;
    var early, late := vs[..third], vs[n - third..];
    forall i | 0 <= i < third
      ensures early[i] - late[i] >= 0.0
    {
      Falls(vs, i, n - third + i);
    }
    AveragesApart(late, early, 0.0);
  }

  /** Measuring from another baseline leaves the trend alone. */
  lemma OffsetIsInvisible(vs: seq<real>, ws: seq<real>, c: real)
    requires |vs| == |ws| >= MIN_TREND_SAMPLES
    requires forall i :: 0 <= i < |vs| ==> ws[i] == vs[i] + c
    ensures TrendOf(ws) == TrendOf(vs)
  {
    var n, third := |vs|, |vs| / 3;
    AverageShifts(vs[..third], ws[..third], c);
    AverageShifts(vs[n - third..], ws[n - third..], c);
  }

  lemma AverageShifts(a: seq<real>, b: seq<real>, c: real)
    requires |a| == |b| > 0 && forall i :: 0 <= i < |a| ==> b[i] == a[i] + c
    ensures Average(b) == Average(a) + c
  {
    AveragesApart(a, b, c);
    AveragesApart(b, a, -c);
  }

  function Reversed(vs: seq<real>): (r: seq<real>)
    ensures |r| == |vs|
  {
    seq(|vs|, i requires 0 <= i < |vs| => vs[|vs| - 1 - i])
  }

  lemma {:induction false} ReversedSum(vs: seq<real>)
    ensures SumOf(Reversed(vs)) == SumOf(vs)
    decreases |vs|
  {
    if vs != [] {
      var n := |vs| - 1;
      ReversedSum(vs[..n]);
      assert Reversed(vs) == [vs[n]] + Reversed(vs[..n]);
      SumSplits([vs[n]], Reversed(vs[..n]));
      assert [vs[n]][..0] == [];
    }
  }

  /** Playing the window backwards turns growth into draining of the same size. */
  lemma ReversalNegates(vs: seq<real>)
    requires |vs| >= MIN_TREND_SAMPLES
    ensures TrendOf(Reversed(vs)) == -TrendOf(vs)
  {
    var n, third := |vs|, |vs| / 3;
    var rs := Reversed(vs);
    assert rs[..third] == Reversed(vs[n - third..]);
    assert rs[n - third..] == Reversed(vs[..third]);
    ReversedSum(vs[..third]);
    ReversedSum(vs[n - third..]);
  }
}
