/** The trigger conditions of the nineteen rules: internal/recommender/rules.go and thresholds.go. */
module Rules {
  import opened Telemetry
  import opened TelemetryStore
  import opened Window
  import opened Sorting
  import Trends

  datatype Thresholds = Thresholds(
    sustainFor: int,
    staleAfter: int,
    queueWaitingRequests: real,
    gpuUtilHighPct: real,
    gpuUtilLowPct: real,
    gpuMemoryHighPct: real,
    kvCacheHighPct: real,
    preemptionsPerSec: real,
    ttftP95Ms: real,
    e2eP95Ms: real,
    queueShareOfTTFTPct: real,
    tailRatioP99P95: real,
    tokensPerSecondLow: real,
    prefixCacheHitLowPct: real,
    errorRatePct: real,
    abortRatePct: real)
  {
    /** What Validate accepts. */
    predicate Valid() {
      && sustainFor >= 0
      && staleAfter > 0
      && gpuUtilLowPct < gpuUtilHighPct
      && Percentage(gpuUtilHighPct) && Percentage(gpuUtilLowPct) && Percentage(gpuMemoryHighPct)
      && Percentage(kvCacheHighPct) && Percentage(queueShareOfTTFTPct) && Percentage(prefixCacheHitLowPct)
      && Percentage(errorRatePct) && Percentage(abortRatePct)
      && queueWaitingRequests >= 0.0 && preemptionsPerSec >= 0.0 && ttftP95Ms >= 0.0
      && e2eP95Ms >= 0.0 && tokensPerSecondLow >= 0.0
      && tailRatioP99P95 >= 1.0
    }
  }

  predicate Percentage(v: real) {
    0.0 <= v <= 100.0
  }

  /** What a rule is evaluated on. */
  datatype Eval = Eval(latest: Snapshot, window: Series, t: Thresholds, now: int)

  datatype Code =
    | QueueWithSaturatedGPU | QueueWithIdleGPU | QueueGrowing | QueueDeferred
    | KVPreemption | KVNearCapacity
    | TTFTAdmissionBound | TTFTPrefillBound | E2ELatencyHigh | TailLatencyGap
    | PrefixCacheIneffective | LowTokenThroughput | GPUMemoryPressure
    | ErrorRateHigh | ClientAborts
    | AtReplicaCeiling | ReplicasNotReady
    | TelemetryIncomplete | TelemetryStale

  /** The share of time-to-first-token spent waiting for admission, clamped to 100. */
  function QueueShareOfTTFT(s: Snapshot): Option<real> {
    if !s.ttftP95Ms.ok || !s.queueTimeP95Ms.ok || s.ttftP95Ms.value <= 0.0 then None
    else
      var share := s.queueTimeP95Ms.value / s.ttftP95Ms.value * 100.0;
      Some(if share > 100.0 then 100.0 else share)
  }

  /** The condition a sustained rule requires of every recent snapshot. */
  predicate Condition(c: Code, t: Thresholds, s: Snapshot) {
    match c
    case QueueWithSaturatedGPU =>
      s.requestsWaiting.Above(t.queueWaitingRequests) && s.gpuUtilizationPct.Above(t.gpuUtilHighPct)
    case QueueWithIdleGPU =>
      s.requestsWaiting.Above(t.queueWaitingRequests) && s.gpuUtilizationPct.Below(t.gpuUtilLowPct)
    case KVNearCapacity => s.kvCacheUsagePct.Above(t.kvCacheHighPct)
    case E2ELatencyHigh => s.p95LatencyMs.Above(t.e2eP95Ms)
    case GPUMemoryPressure => s.gpuMemoryUsedPct.Above(t.gpuMemoryHighPct)
    case ErrorRateHigh => s.errorRatePct.Above(t.errorRatePct)
    case ClientAborts => s.abortRatePct.Above(t.abortRatePct)
    case AtReplicaCeiling => s.requestsWaiting.Above(t.queueWaitingRequests)
    case _ => true
  }

  predicate Holds(e: Eval, c: Code) {
    Sustained(e.latest, e.window, e.t.sustainFor, ConditionOf(c, e.t))
  }

  function ConditionOf(c: Code, t: Thresholds): Snapshot -> bool {
    (s: Snapshot) => Condition(c, t, s)
  }

  function WaitingOf(s: Snapshot): Metric {
    s.requestsWaiting
  }

  /** Whether the rule's Eval returns a finding. */
  predicate Fires(c: Code, e: Eval) {
    var t, s := e.t, e.latest;
    match c
    case QueueWithSaturatedGPU => Holds(e, c)
    case QueueWithIdleGPU => Holds(e, c)
    case QueueGrowing =>
      var delta := Trend(e.window, t.sustainFor, WaitingOf);
      delta.Some? && s.requestsWaiting.Above(t.queueWaitingRequests) && delta.value > 1.0
    case QueueDeferred =>
      && s.waitingDeferred.ok && s.waitingForCapacity.ok
      && s.waitingDeferred.value + s.waitingForCapacity.value > t.queueWaitingRequests
      && s.waitingDeferred.value > s.waitingForCapacity.value
    case KVPreemption => s.preemptionsPerSec.Above(t.preemptionsPerSec)
    case KVNearCapacity => Holds(e, c)
    case TTFTAdmissionBound =>
      var share := QueueShareOfTTFT(s);
      share.Some? && s.ttftP95Ms.Above(t.ttftP95Ms) && share.value >= t.queueShareOfTTFTPct
    case TTFTPrefillBound =>
      var share := QueueShareOfTTFT(s);
      share.Some? && s.ttftP95Ms.Above(t.ttftP95Ms) && share.value < t.queueShareOfTTFTPct
    case E2ELatencyHigh => Holds(e, c)
    case TailLatencyGap =>
      && s.p95LatencyMs.ok && s.p99LatencyMs.ok && s.p95LatencyMs.value > 0.0
      && s.p99LatencyMs.value / s.p95LatencyMs.value > t.tailRatioP99P95
    case PrefixCacheIneffective =>
      && s.prefixCacheHitRatePct.ok && s.promptTokensPerSec.ok
      && s.promptTokensPerSec.value >= 50.0
      && s.prefixCacheHitRatePct.value < t.prefixCacheHitLowPct
    case LowTokenThroughput =>
      && s.gpuUtilizationPct.Above(t.gpuUtilHighPct)
      && s.tokensPerSecond.ok && s.tokensPerSecond.value < t.tokensPerSecondLow
    case GPUMemoryPressure => Holds(e, c)
    case ErrorRateHigh => Holds(e, c)
    case ClientAborts => Holds(e, c)
    case AtReplicaCeiling =>
      && s.replicas.ok && s.maxReplicas.ok && s.maxReplicas.value > 0.0
      && s.replicas.value >= s.maxReplicas.value
      && Holds(e, c)
    case ReplicasNotReady =>
      && s.replicas.ok && s.readyReplicas.ok
      && s.replicas.value - s.readyReplicas.value >= 1.0
      && s.requestsWaiting.Above(t.queueWaitingRequests)
    case TelemetryIncomplete => s.metricsMissing != []
    case TelemetryStale => s.Age(e.now) > t.staleAfter
  }

  /** Idle and saturated are never diagnosed together, because their bands do not overlap. */
  lemma QueueRulesAreExclusive(e: Eval)
    requires e.t.Valid()
    ensures !(Fires(QueueWithSaturatedGPU, e) && Fires(QueueWithIdleGPU, e))
  {
  }

  /** A slow first token with a known queue share is blamed on exactly one of the two causes. */
  lemma SlowFirstTokenHasOneCause(e: Eval)
    ensures !(Fires(TTFTAdmissionBound, e) && Fires(TTFTPrefillBound, e))
    ensures (Fires(TTFTAdmissionBound, e) || Fires(TTFTPrefillBound, e)) <==>
      e.latest.ttftP95Ms.Above(e.t.ttftP95Ms) && QueueShareOfTTFT(e.latest).Some?
    ensures e.t.Valid() && Fires(TTFTPrefillBound, e) ==> e.latest.queueTimeP95Ms.value < e.latest.ttftP95Ms.value
  {
    var s := e.latest;
    if e.t.Valid() && Fires(TTFTPrefillBound, e) && s.queueTimeP95Ms.value >= s.ttftP95Ms.value {
      AtLeastAll(s.queueTimeP95Ms.value, s.ttftP95Ms.value);
    }
  }

  lemma AtLeastAll(part: real, whole: real)
    requires whole > 0.0 && part >= whole
    ensures part / whole >= 1.0
  {
  }

  /** A queue whose measured depths never rise is not reported as growing. */
  lemma DrainingQueueIsNotGrowing(e: Eval)
    requires NeverRises(Recent(e.window, e.t.sustainFor * TREND_WINDOW))
    ensures !Fires(QueueGrowing, e)
  {
    var recent := Recent(e.window, e.t.sustainFor * TREND_WINDOW);
    if TrendOver(recent, WaitingOf).Some? {
      DrainingTrend(recent);
    }
  }

  /** On a history shorter than the trend looks back, only the outer thirds of it matter. */
  lemma GrowthInShortHistory(e: Eval)
    requires TimeOrdered(e.window) && e.t.sustainFor > 0 && Span(e.window) < e.t.sustainFor * TREND_WINDOW
    requires |e.window| >= MIN_TREND_SAMPLES && Trends.ThirdsMeasured(e.window, WaitingOf)
    ensures Fires(QueueGrowing, e) <==>
      e.latest.requestsWaiting.Above(e.t.queueWaitingRequests) && Trends.TrendOf(Values(e.window, WaitingOf)) > 1.0
  {
    Trends.ShortHistoryHasTrend(e.window, e.t.sustainFor, WaitingOf);
    Trends.TrendIsTrendOf(e.window, WaitingOf);
  }

  /** Ten more requests waiting every time unit, except that two readings are missing. */
  function GapReading(base: Snapshot, i: nat): Snapshot {
    base.(timestamp := i, requestsWaiting := Metric((10 * i) as real, i != 2 && i != 3))
  }

  function GapWindow(base: Snapshot): Series {
    seq(6, i requires i >= 0 => GapReading(base, i))
  }

  /** The thirds average 5 and 45. */
  lemma GapTrend(vs: seq<real>)
    requires |vs| == 6 && vs[0] == 0.0 && vs[1] == 10.0 && vs[4] == 40.0 && vs[5] == 50.0
    ensures Trends.TrendOf(vs) == 40.0
  {
    SumOfTwo(vs[..2]);
    SumOfTwo(vs[4..]);
  }

  lemma GapIsInTheMiddle(base: Snapshot)
    ensures TimeOrdered(GapWindow(base)) && Span(GapWindow(base)) == 5
    ensures !AllMeasured(GapWindow(base), WaitingOf) && Trends.ThirdsMeasured(GapWindow(base), WaitingOf)
  {
    assert !WaitingOf(GapWindow(base)[2]).ok;
  }

  /**
    Six samples with a gap in the middle, covering no more than a third of what the trend
    looks back on, do report a growing queue.
    */
  lemma GapsAndShortRetentionDoNotHideGrowth(base: Snapshot, t: Thresholds, now: int)
    requires t.sustainFor >= 5 && t.queueWaitingRequests < 50.0
    ensures
      var window := GapWindow(base);
      && !AllMeasured(window, WaitingOf) && Span(window) <= t.sustainFor
      && Fires(QueueGrowing, Eval(window[5], window, t, now))
  {
    GapIsInTheMiddle(base);
    GapTrend(Values(GapWindow(base), WaitingOf));
    GrowthInShortHistory(Eval(GapWindow(base)[5], GapWindow(base), t, now));
  }

  lemma SumOfTwo(vs: seq<real>)
    requires |vs| == 2
    ensures SumOf(vs) == vs[0] + vs[1]
  {
    assert vs[..1][..0] == [];
    assert SumOf(vs[..1]) == vs[0];
  }

  predicate NeverRises(recent: Series) {
    forall i, j :: 0 <= i < j < |recent| && recent[i].requestsWaiting.ok && recent[j].requestsWaiting.ok ==>
      recent[j].requestsWaiting.value <= recent[i].requestsWaiting.value
  }

  lemma DrainingTrend(recent: Series)
    requires NeverRises(recent) && TrendOver(recent, WaitingOf).Some?
    ensures TrendOver(recent, WaitingOf).value <= 0.0
  {
    var n, third := |recent|, |recent| / 3;
    var early, late := recent[..third], recent[n - third..];
    LaterThirdIsLower(recent, early, late, n - third);
    Trends.AveragesApart(Values(late, WaitingOf), Values(early, WaitingOf), 0.0);
  }

  lemma LaterThirdIsLower(recent: Series, early: Series, late: Series, n: nat)
    requires |early| == |late| <= n && n + |late| == |recent| && NeverRises(recent)
    requires early == recent[..|early|] && late == recent[n..]
    requires AllMeasured(early, WaitingOf) && AllMeasured(late, WaitingOf)
    ensures forall i :: 0 <= i < |early| ==> Values(early, WaitingOf)[i] - Values(late, WaitingOf)[i] >= 0.0
  {
  }

  // ---------------------------------------------------------------------------
  // Information monotonicity
  // ---------------------------------------------------------------------------

  /** a is b, or is not measured. */
  predicate Erases(a: Metric, b: Metric) {
    !a.ok || a == b
  }

  /** a is b with some of its measurements missing. */
  predicate KnowsLess(a: Snapshot, b: Snapshot) {
    && a.timestamp == b.timestamp && a.runtime == b.runtime
    && a.namespace == b.namespace && a.workloadName == b.workloadName
    && a.metricsMissing == b.metricsMissing
    && Erases(a.tokensPerSecond, b.tokensPerSecond)
    && Erases(a.promptTokensPerSec, b.promptTokensPerSec)
    && Erases(a.p95LatencyMs, b.p95LatencyMs) && Erases(a.p99LatencyMs, b.p99LatencyMs)
    && Erases(a.ttftP95Ms, b.ttftP95Ms) && Erases(a.queueTimeP95Ms, b.queueTimeP95Ms)
    && Erases(a.requestsWaiting, b.requestsWaiting)
    && Erases(a.waitingForCapacity, b.waitingForCapacity) && Erases(a.waitingDeferred, b.waitingDeferred)
    && Erases(a.gpuUtilizationPct, b.gpuUtilizationPct) && Erases(a.gpuMemoryUsedPct, b.gpuMemoryUsedPct)
    && Erases(a.kvCacheUsagePct, b.kvCacheUsagePct) && Erases(a.preemptionsPerSec, b.preemptionsPerSec)
    && Erases(a.prefixCacheHitRatePct, b.prefixCacheHitRatePct)
    && Erases(a.errorRatePct, b.errorRatePct) && Erases(a.abortRatePct, b.abortRatePct)
    && Erases(a.replicas, b.replicas) && Erases(a.readyReplicas, b.readyReplicas)
    && Erases(a.maxReplicas, b.maxReplicas)
  }

  predicate WindowKnowsLess(a: Series, b: Series) {
    |a| == |b| && forall i :: 0 <= i < |a| ==> KnowsLess(a[i], b[i])
  }

  lemma SameRecentStart(a: Series, b: Series, d: int)
    requires |a| == |b| && forall i :: 0 <= i < |a| ==> a[i].timestamp == b[i].timestamp
    ensures RecentStart(a, d) == RecentStart(b, d)
  {
    if a != [] && d > 0 {
      SearchInDependsOnValues(0, |a|, NotBefore(a, Cutoff(a, d)), NotBefore(b, Cutoff(b, d)));
    }
  }

  lemma RecentKnowsLess(a: Series, b: Series, d: int)
    requires WindowKnowsLess(a, b)
    ensures WindowKnowsLess(Recent(a, d), Recent(b, d))
  {
    SameRecentStart(a, b, d);
    var start := RecentStart(a, d);
    forall i | 0 <= i < |Recent(a, d)|
      ensures KnowsLess(Recent(a, d)[i], Recent(b, d)[i])
    {
      assert KnowsLess(a[start + i], b[start + i]);
    }
  }

  lemma ConditionIsMonotone(c: Code, t: Thresholds, a: Snapshot, b: Snapshot)
    requires KnowsLess(a, b) && Condition(c, t, a)
    ensures Condition(c, t, b)
  {
  }

  lemma HoldsIsMonotone(a: Eval, b: Eval, c: Code)
    requires KnowsLess(a.latest, b.latest) && WindowKnowsLess(a.window, b.window) && a.t == b.t
    requires Holds(a, c)
    ensures Holds(b, c)
  {
    var d := a.t.sustainFor;
    RecentKnowsLess(a.window, b.window, d);
    var ra, rb := Recent(a.window, d), Recent(b.window, d);
    if d <= 0 {
      ConditionIsMonotone(c, a.t, a.latest, b.latest);
    } else {
      SpanOfLess(ra, rb);
      forall i | 0 <= i < |rb|
        ensures Condition(c, b.t, rb[i])
      {
        ConditionIsMonotone(c, a.t, ra[i], rb[i]);
      }
    }
  }

  lemma SpanOfLess(a: Series, b: Series)
    requires WindowKnowsLess(a, b)
    ensures Span(a) == Span(b)
  {
  }

  lemma MeanIsMonotone(a: Series, b: Series)
    requires WindowKnowsLess(a, b) && Mean(a, WaitingOf).Some?
    ensures Mean(b, WaitingOf) == Mean(a, WaitingOf)
  {
    forall i | 0 <= i < |a|
      ensures WaitingOf(b[i]) == WaitingOf(a[i]) && WaitingOf(b[i]).ok
    {
      assert KnowsLess(a[i], b[i]) && WaitingOf(a[i]).ok;
    }
    assert Values(a, WaitingOf) == Values(b, WaitingOf);
  }

  lemma PartsKnowLess(a: Series, b: Series, n: nat)
    requires WindowKnowsLess(a, b) && n <= |a|
    ensures WindowKnowsLess(a[..n], b[..n])
    ensures WindowKnowsLess(a[n..], b[n..])
  {
  }

  lemma PrefixMean(a: Series, b: Series, n: nat)
    requires WindowKnowsLess(a, b) && n <= |a| && Mean(a[..n], WaitingOf).Some?
    ensures Mean(b[..n], WaitingOf) == Mean(a[..n], WaitingOf)
  {
    PartsKnowLess(a, b, n);
    MeanIsMonotone(a[..n], b[..n]);
  }

  lemma SuffixMean(a: Series, b: Series, n: nat)
    requires WindowKnowsLess(a, b) && n <= |a| && Mean(a[n..], WaitingOf).Some?
    ensures Mean(b[n..], WaitingOf) == Mean(a[n..], WaitingOf)
  {
    PartsKnowLess(a, b, n);
    MeanIsMonotone(a[n..], b[n..]);
  }

  lemma TrendOverIsMonotone(a: Series, b: Series)
    requires WindowKnowsLess(a, b) && TrendOver(a, WaitingOf).Some?
    ensures TrendOver(b, WaitingOf) == TrendOver(a, WaitingOf)
  {
    PrefixMean(a, b, |a| / 3);
    SuffixMean(a, b, |a| - |a| / 3);
  }

  lemma TrendIsMonotone(a: Series, b: Series, d: int)
    requires WindowKnowsLess(a, b) && Trend(a, d, WaitingOf).Some?
    ensures Trend(b, d, WaitingOf) == Trend(a, d, WaitingOf)
  {
    RecentKnowsLess(a, b, d * TREND_WINDOW);
    TrendOverIsMonotone(Recent(a, d * TREND_WINDOW), Recent(b, d * TREND_WINDOW));
  }

  /**
    Erasing measurements, anywhere in the window, never makes a rule fire that did not:
    no rule fires on the absence of data.
    */
  lemma InformationMonotone(c: Code, a: Eval, b: Eval)
    requires KnowsLess(a.latest, b.latest) && WindowKnowsLess(a.window, b.window)
    requires a.t == b.t && a.now == b.now
    requires Fires(c, a)
    ensures Fires(c, b)
  {
    if c.QueueGrowing? {
      TrendIsMonotone(a.window, b.window, a.t.sustainFor);
    } else if IsSustained(c) {
      HoldsIsMonotone(a, b, c);
    }
  }

  predicate IsSustained(c: Code) {
    c in {QueueWithSaturatedGPU, QueueWithIdleGPU, KVNearCapacity, E2ELatencyHigh, GPUMemoryPressure,
          ErrorRateHigh, ClientAborts, AtReplicaCeiling}
  }

  /** No measurement at all. */
  predicate Unmeasured(s: Snapshot) {
    && !s.tokensPerSecond.ok && !s.promptTokensPerSec.ok && !s.p95LatencyMs.ok && !s.p99LatencyMs.ok
    && !s.ttftP95Ms.ok && !s.queueTimeP95Ms.ok && !s.requestsWaiting.ok && !s.waitingForCapacity.ok
    && !s.waitingDeferred.ok && !s.gpuUtilizationPct.ok && !s.gpuMemoryUsedPct.ok && !s.kvCacheUsagePct.ok
    && !s.preemptionsPerSec.ok && !s.prefixCacheHitRatePct.ok && !s.errorRatePct.ok && !s.abortRatePct.ok
    && !s.replicas.ok && !s.readyReplicas.ok && !s.maxReplicas.ok
  }

  /** A workload nothing was measured of can only be reported as badly observed. */
  lemma UnmeasuredFiresOnlyObservability(c: Code, e: Eval)
    requires Unmeasured(e.latest) && (forall i :: 0 <= i < |e.window| ==> Unmeasured(e.window[i]))
    requires Fires(c, e)
    ensures c == TelemetryIncomplete || c == TelemetryStale
  {
  }
}
