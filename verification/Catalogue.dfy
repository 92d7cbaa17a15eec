/**
  The rule catalogue of docs/RECOMMENDATIONS.md, written as the documentation puts it:
  which readings each rule compares with which limits, for how long, how severe its finding
  is and what it suppresses. The rules of the program are proved to be the catalogue's.
  */
module Catalogue {
  import opened Telemetry
  import opened TelemetryStore
  import opened Window
  import opened Rules
  import opened Engine
  import opened Reals

  /** What can be measured of a workload. */
  datatype Reading =
    | TokensPerSecond | PromptTokensPerSec | P95Latency | P99Latency | TTFT | QueueTime
    | Waiting | WaitingForCapacity | WaitingDeferred
    | GPUUtilization | GPUMemory | KVCacheUsage | PreemptionRate | PrefixCacheHits
    | ErrorRate | AbortRate | DesiredReplicas | ReadyReplicas | MaxReplicas

  function Read(s: Snapshot, m: Reading): Metric {
    match m
    case TokensPerSecond => s.tokensPerSecond
    case PromptTokensPerSec => s.promptTokensPerSec
    case P95Latency => s.p95LatencyMs
    case P99Latency => s.p99LatencyMs
    case TTFT => s.ttftP95Ms
    case QueueTime => s.queueTimeP95Ms
    case Waiting => s.requestsWaiting
    case WaitingForCapacity => s.waitingForCapacity
    case WaitingDeferred => s.waitingDeferred
    case GPUUtilization => s.gpuUtilizationPct
    case GPUMemory => s.gpuMemoryUsedPct
    case KVCacheUsage => s.kvCacheUsagePct
    case PreemptionRate => s.preemptionsPerSec
    case PrefixCacheHits => s.prefixCacheHitRatePct
    case ErrorRate => s.errorRatePct
    case AbortRate => s.abortRatePct
    case DesiredReplicas => s.replicas
    case ReadyReplicas => s.readyReplicas
    case MaxReplicas => s.maxReplicas
  }

  /** What readings are compared with. */
  datatype Limit =
    | QueueLimit | GPUHigh | GPULow | MemoryHigh | KVHigh | PreemptionLimit | TTFTLimit | E2ELimit
    | QueueShareLimit | TailRatioLimit | TokensLow | PrefixLow | ErrorLimit | AbortLimit

  function LimitOf(t: Thresholds, l: Limit): real {
    match l
    case QueueLimit => t.queueWaitingRequests
    case GPUHigh => t.gpuUtilHighPct
    case GPULow => t.gpuUtilLowPct
    case MemoryHigh => t.gpuMemoryHighPct
    case KVHigh => t.kvCacheHighPct
    case PreemptionLimit => t.preemptionsPerSec
    case TTFTLimit => t.ttftP95Ms
    case E2ELimit => t.e2eP95Ms
    case QueueShareLimit => t.queueShareOfTTFTPct
    case TailRatioLimit => t.tailRatioP99P95
    case TokensLow => t.tokensPerSecondLow
    case PrefixLow => t.prefixCacheHitLowPct
    case ErrorLimit => t.errorRatePct
    case AbortLimit => t.abortRatePct
  }

  /** A reading has to be strictly over, or strictly under, a limit; an absent one is neither. */
  datatype Bound = Over(reading: Reading, limit: Limit) | Under(reading: Reading, limit: Limit)

  predicate Crosses(s: Snapshot, t: Thresholds, b: Bound) {
    var m := Read(s, b.reading);
    m.ok && if b.Over? then m.value > LimitOf(t, b.limit) else m.value < LimitOf(t, b.limit)
  }

  /** The comparisons of the rules that consist of nothing else. */
  function Bounds(c: Code): set<Bound> {
    match c
    case QueueWithSaturatedGPU => {Over(Waiting, QueueLimit), Over(GPUUtilization, GPUHigh)}
    case QueueWithIdleGPU => {Over(Waiting, QueueLimit), Under(GPUUtilization, GPULow)}
    case KVPreemption => {Over(PreemptionRate, PreemptionLimit)}
    case KVNearCapacity => {Over(KVCacheUsage, KVHigh)}
    case E2ELatencyHigh => {Over(P95Latency, E2ELimit)}
    case LowTokenThroughput => {Over(GPUUtilization, GPUHigh), Under(TokensPerSecond, TokensLow)}
    case GPUMemoryPressure => {Over(GPUMemory, MemoryHigh)}
    case ErrorRateHigh => {Over(ErrorRate, ErrorLimit)}
    case ClientAborts => {Over(AbortRate, AbortLimit)}
    case AtReplicaCeiling => {Over(Waiting, QueueLimit)}
    case QueueGrowing => {Over(Waiting, QueueLimit)}
    case ReplicasNotReady => {Over(Waiting, QueueLimit)}
    case _ => {}
  }

  predicate AllCross(s: Snapshot, t: Thresholds, c: Code) {
    forall b :: b in Bounds(c) ==> Crosses(s, t, b)
  }

  /** The rules that consist of sustained comparisons alone. */
  const SUSTAINED: set<Code> := {
    QueueWithSaturatedGPU, QueueWithIdleGPU, KVNearCapacity, E2ELatencyHigh, GPUMemoryPressure,
    ErrorRateHigh, ClientAborts}

  /** Sample i is within the sustain window: from sustainFor before the last one on, or just before that. */
  predicate Within(window: Series, sustainFor: int, i: nat)
    requires i < |window|
  {
    var cutoff := window[|window| - 1].timestamp - sustainFor;
    window[i].timestamp >= cutoff || i + 1 == |window| || window[i + 1].timestamp >= cutoff
  }

  /** The history covers the sustain window and the comparisons held all through it. */
  predicate HeldThroughout(e: Eval, c: Code) {
    if e.t.sustainFor <= 0 then e.window != [] && AllCross(e.latest, e.t, c)
    else Covers(e.window, e.t.sustainFor) && CrossedWithin(e.window, e.t, c)
  }

  predicate Covers(w: Series, sustainFor: int) {
    |w| >= 2 && w[|w| - 1].timestamp - w[0].timestamp >= sustainFor
  }

  predicate CrossedWithin(w: Series, t: Thresholds, c: Code) {
    forall i :: 0 <= i < |w| && Within(w, t.sustainFor, i) ==> AllCross(w[i], t, c)
  }

  // ---------------------------------------------------------------------------
  // The conditions are the catalogue's
  // ---------------------------------------------------------------------------

  lemma ConditionIsBounds(c: Code, t: Thresholds, s: Snapshot)
    requires c in SUSTAINED || c.AtReplicaCeiling?
    ensures Condition(c, t, s) <==> AllCross(s, t, c)
  {
    if AllCross(s, t, c) {
      forall b | b in Bounds(c) ensures Crosses(s, t, b) {}
      BoundsHold(c, t, s);
    }
  }

  lemma BoundsHold(c: Code, t: Thresholds, s: Snapshot)
    requires (c in SUSTAINED || c.AtReplicaCeiling?) && AllCross(s, t, c)
    ensures Condition(c, t, s)
  {
    match c
    case QueueWithSaturatedGPU =>
      assert Crosses(s, t, Over(Waiting, QueueLimit)) && Crosses(s, t, Over(GPUUtilization, GPUHigh));
    case QueueWithIdleGPU =>
      assert Crosses(s, t, Over(Waiting, QueueLimit)) && Crosses(s, t, Under(GPUUtilization, GPULow));
    case KVNearCapacity => assert Crosses(s, t, Over(KVCacheUsage, KVHigh));
    case E2ELatencyHigh => assert Crosses(s, t, Over(P95Latency, E2ELimit));
    case GPUMemoryPressure => assert Crosses(s, t, Over(GPUMemory, MemoryHigh));
    case ErrorRateHigh => assert Crosses(s, t, Over(ErrorRate, ErrorLimit));
    case ClientAborts => assert Crosses(s, t, Over(AbortRate, AbortLimit));
    case AtReplicaCeiling => assert Crosses(s, t, Over(Waiting, QueueLimit));
  }

  lemma WithinIsRecent(w: Series, d: int, i: nat)
    requires TimeOrdered(w) && i < |w| && d > 0
    ensures Within(w, d, i) <==> w[i].timestamp >= Cutoff(w, d) || IsLastBefore(w, i, Cutoff(w, d))
  {
  }

  lemma CrossedIsHeld(w: Series, t: Thresholds, c: Code)
    requires TimeOrdered(w) && w != [] && t.sustainFor > 0 && (c in SUSTAINED || c.AtReplicaCeiling?)
    ensures CrossedWithin(w, t, c) <==>
      forall i :: 0 <= i < |w| ==>
        (w[i].timestamp >= Cutoff(w, t.sustainFor) || IsLastBefore(w, i, Cutoff(w, t.sustainFor))) ==>
          ConditionOf(c, t)(w[i])
  {
    forall i | 0 <= i < |w|
      ensures Within(w, t.sustainFor, i) <==>
        w[i].timestamp >= Cutoff(w, t.sustainFor) || IsLastBefore(w, i, Cutoff(w, t.sustainFor))
      ensures ConditionOf(c, t)(w[i]) <==> AllCross(w[i], t, c)
    {
      WithinIsRecent(w, t.sustainFor, i);
      ConditionIsBounds(c, t, w[i]);
    }
  }

  lemma HoldsIsHeldThroughout(e: Eval, c: Code)
    requires TimeOrdered(e.window) && (c in SUSTAINED || c.AtReplicaCeiling?)
    ensures Holds(e, c) <==> HeldThroughout(e, c)
  {
    if e.t.sustainFor <= 0 {
      ConditionIsBounds(c, e.t, e.latest);
    } else if e.window != [] {
      SustainedMeansHeldThroughout(e.latest, e.window, e.t.sustainFor, ConditionOf(c, e.t));
      CrossedIsHeld(e.window, e.t, c);
    }
  }

  lemma FiresWhenHeld(e: Eval, c: Code)
    requires c in SUSTAINED
    ensures Fires(c, e) <==> Holds(e, c)
  {
    match c
    case QueueWithSaturatedGPU =>
    case QueueWithIdleGPU =>
    case KVNearCapacity =>
    case E2ELatencyHigh =>
    case GPUMemoryPressure =>
    case ErrorRateHigh =>
    case ClientAborts =>
  }

  /** Seven rules fire exactly when their comparisons held throughout the sustain window. */
  lemma SustainedRuleFiresExactlyWhen(e: Eval, c: Code)
    requires TimeOrdered(e.window) && c in SUSTAINED
    ensures Fires(c, e) <==> HeldThroughout(e, c)
  {
    FiresWhenHeld(e, c);
    HoldsIsHeldThroughout(e, c);
  }

  /** IFA-SCL-001: at the ceiling now, with the queue over its limit throughout. */
  lemma ReplicaCeilingFiresExactlyWhen(e: Eval)
    requires TimeOrdered(e.window)
    ensures Fires(AtReplicaCeiling, e) <==>
      && e.latest.replicas.ok && e.latest.maxReplicas.ok && e.latest.maxReplicas.value > 0.0
      && e.latest.replicas.value >= e.latest.maxReplicas.value
      && HeldThroughout(e, AtReplicaCeiling)
  {
    CeilingFiresWhenHeld(e);
    HoldsIsHeldThroughout(e, AtReplicaCeiling);
  }

  lemma CeilingFiresWhenHeld(e: Eval)
    ensures Fires(AtReplicaCeiling, e) <==>
      && e.latest.replicas.ok && e.latest.maxReplicas.ok && e.latest.maxReplicas.value > 0.0
      && e.latest.replicas.value >= e.latest.maxReplicas.value
      && Holds(e, AtReplicaCeiling)
  {
  }

  /** IFA-KV-001 and IFA-EFF-002 look at the latest reading alone. */
  lemma LatestRuleFiresExactlyWhen(e: Eval, c: Code)
    requires c.KVPreemption? || c.LowTokenThroughput?
    ensures Fires(c, e) <==> AllCross(e.latest, e.t, c)
  {
    var s, t := e.latest, e.t;
    if AllCross(s, t, c) {
      if c.KVPreemption? {
        assert Crosses(s, t, Over(PreemptionRate, PreemptionLimit));
      } else {
        assert Crosses(s, t, Over(GPUUtilization, GPUHigh)) && Crosses(s, t, Under(TokensPerSecond, TokensLow));
      }
    }
  }

  /** IFA-CAP-003: the queue is over its limit, and grew by more than one over the trend window. */
  lemma GrowingQueueFiresExactlyWhen(e: Eval)
    ensures Fires(QueueGrowing, e) <==>
      && Crosses(e.latest, e.t, Over(Waiting, QueueLimit))
      && Trend(e.window, e.t.sustainFor, WaitingOf).Some?
      && Trend(e.window, e.t.sustainFor, WaitingOf).value > 1.0
  {
  }

  /** IFA-CAP-004: more deferred than waiting for capacity, and together over the limit. */
  lemma DeferredQueueFiresExactlyWhen(e: Eval)
    ensures
      var deferred, capacity := Read(e.latest, WaitingDeferred), Read(e.latest, WaitingForCapacity);
      Fires(QueueDeferred, e) <==>
        deferred.ok && capacity.ok && deferred.value > capacity.value &&
        deferred.value + capacity.value > LimitOf(e.t, QueueLimit)
  {
  }

  lemma ShareInPercent(part: real, whole: real, pct: real)
    requires whole > 0.0
    ensures part / whole * 100.0 >= pct <==> 100.0 * part >= pct * whole
  {
    var f := part / whole;
    assert f * whole == part;
    assert Times(whole, f * 100.0) == 100.0 * part && Times(whole, pct) == pct * whole;
    if f * 100.0 >= pct {
      TimesOrder(whole, pct, f * 100.0);
    } else {
      TimesOrder(whole, f * 100.0, pct);
    }
  }

  /**
    IFA-LAT-001 and IFA-LAT-002: the first token is late and the share of it spent queueing
    is at least, or less than, the configured percentage.
    */
  lemma FirstTokenRulesFireExactlyWhen(e: Eval)
    requires 0.0 <= LimitOf(e.t, QueueShareLimit) <= 100.0
    ensures
      var ttft, queued, pct := Read(e.latest, TTFT), Read(e.latest, QueueTime), LimitOf(e.t, QueueShareLimit);
      var late := ttft.ok && queued.ok && ttft.value > 0.0 && ttft.value > LimitOf(e.t, TTFTLimit);
      && (Fires(TTFTAdmissionBound, e) <==> late && 100.0 * queued.value >= pct * ttft.value)
      && (Fires(TTFTPrefillBound, e) <==> late && 100.0 * queued.value < pct * ttft.value)
  {
    var ttft, queued := e.latest.ttftP95Ms, e.latest.queueTimeP95Ms;
    if ttft.ok && queued.ok && ttft.value > 0.0 {
      ShareInPercent(queued.value, ttft.value, e.t.queueShareOfTTFTPct);
    }
  }

  lemma RatioOver(x: real, y: real, ratio: real)
    requires y > 0.0
    ensures x / y > ratio <==> x > ratio * y
  {
    var f := x / y;
    assert f * y == x;
    if f <= ratio {
      TimesOrder(y, f, ratio);
      assert Times(y, f) == x && Times(y, ratio) == ratio * y;
    } else {
      TimesOrder(y, ratio, f);
      assert Times(y, f) == x && Times(y, ratio) == ratio * y;
    }
  }

  /** IFA-LAT-004: p99 is more than the configured multiple of p95. */
  lemma TailGapFiresExactlyWhen(e: Eval)
    ensures
      var p95, p99 := Read(e.latest, P95Latency), Read(e.latest, P99Latency);
      Fires(TailLatencyGap, e) <==>
        p95.ok && p99.ok && p95.value > 0.0 && p99.value > LimitOf(e.t, TailRatioLimit) * p95.value
  {
    var p95, p99 := e.latest.p95LatencyMs, e.latest.p99LatencyMs;
    if p95.ok && p99.ok && p95.value > 0.0 {
      RatioOver(p99.value, p95.value, e.t.tailRatioP99P95);
    }
  }

  /** IFA-EFF-001: at least 50 prompt tokens a second and too few prefix cache hits. */
  lemma PrefixCacheFiresExactlyWhen(e: Eval)
    ensures
      var prompt := Read(e.latest, PromptTokensPerSec);
      Fires(PrefixCacheIneffective, e) <==>
        prompt.ok && !(prompt.value < 50.0) && Crosses(e.latest, e.t, Under(PrefixCacheHits, PrefixLow))
  {
  }

  /** IFA-SCL-002: a replica or more is not ready while the queue is over its limit. */
  lemma UnreadyReplicasFireExactlyWhen(e: Eval)
    ensures
      var desired, ready := Read(e.latest, DesiredReplicas), Read(e.latest, ReadyReplicas);
      Fires(ReplicasNotReady, e) <==>
        desired.ok && ready.ok && ready.value + 1.0 <= desired.value &&
        Crosses(e.latest, e.t, Over(Waiting, QueueLimit))
  {
  }

  /** IFA-OBS-001 and IFA-OBS-002: some expected metric is missing; the last scrape is too long ago. */
  lemma ObservabilityRulesFireExactlyWhen(e: Eval)
    ensures Fires(TelemetryIncomplete, e) <==> |e.latest.metricsMissing| > 0
    ensures Fires(TelemetryStale, e) <==> e.now > e.latest.timestamp + e.t.staleAfter
  {
  }

  // ---------------------------------------------------------------------------
  // Breaches and quiet samples
  // ---------------------------------------------------------------------------

  /** Measured over its limits in every sample of a history that covers the window, a rule fires. */
  lemma SteadyBreachFires(e: Eval, c: Code)
    requires TimeOrdered(e.window) && c in SUSTAINED && e.t.sustainFor > 0 && Covers(e.window, e.t.sustainFor)
    requires forall i :: 0 <= i < |e.window| ==> AllCross(e.window[i], e.t, c)
    ensures Fires(c, e)
  {
    SustainedRuleFiresExactlyWhen(e, c);
  }

  /** So it is in the workload's report, unless a rule that fired as well suppresses it. */
  lemma SteadyBreachIsReported(e: Eval, c: Code, out: seq<Recommendation>)
    requires TimeOrdered(e.window) && c in SUSTAINED && e.t.sustainFor > 0 && Covers(e.window, e.t.sustainFor)
    requires forall i :: 0 <= i < |e.window| ==> AllCross(e.window[i], e.t, c)
    requires Reports(out, Survivors(Fired(e)), e.latest)
    ensures ReportedOrSuperseded(out, Fired(e), c)
  {
    SteadyBreachFires(e, c);
    AppliesEverywhere(c, e.latest.runtime);
    EveryRuleIsEvaluated(e, c);
    ReportIsOfWhatFired(out, Fired(e), e.latest);
  }

  lemma AppliesEverywhere(c: Code, runtime: Runtime)
    requires c in SUSTAINED
    ensures AppliesTo(c, runtime)
  {
  }

  /** One recent sample that is at a limit, on the other side of it, or unmeasured, and it does not. */
  lemma OneQuietSampleSilences(e: Eval, c: Code, i: nat, b: Bound)
    requires TimeOrdered(e.window) && c in SUSTAINED && e.t.sustainFor > 0
    requires i < |e.window| && Within(e.window, e.t.sustainFor, i) && b in Bounds(c)
    requires
      var m := Read(e.window[i], b.reading);
      !m.ok || if b.Over? then m.value <= LimitOf(e.t, b.limit) else m.value >= LimitOf(e.t, b.limit)
    ensures !Fires(c, e)
  {
    SustainedRuleFiresExactlyWhen(e, c);
    assert !Crosses(e.window[i], e.t, b);
  }

  // ---------------------------------------------------------------------------
  // Rules read nothing else
  // ---------------------------------------------------------------------------

  function Reads(c: Code): set<Reading> {
    match c
    case QueueWithSaturatedGPU => {Waiting, GPUUtilization}
    case QueueWithIdleGPU => {Waiting, GPUUtilization}
    case QueueGrowing => {Waiting}
    case QueueDeferred => {WaitingDeferred, WaitingForCapacity}
    case KVPreemption => {PreemptionRate}
    case KVNearCapacity => {KVCacheUsage}
    case TTFTAdmissionBound => {TTFT, QueueTime}
    case TTFTPrefillBound => {TTFT, QueueTime}
    case E2ELatencyHigh => {P95Latency}
    case TailLatencyGap => {P95Latency, P99Latency}
    case PrefixCacheIneffective => {PromptTokensPerSec, PrefixCacheHits}
    case LowTokenThroughput => {GPUUtilization, TokensPerSecond}
    case GPUMemoryPressure => {GPUMemory}
    case ErrorRateHigh => {ErrorRate}
    case ClientAborts => {AbortRate}
    case AtReplicaCeiling => {Waiting, DesiredReplicas, MaxReplicas}
    case ReplicasNotReady => {Waiting, DesiredReplicas, ReadyReplicas}
    case TelemetryIncomplete => {}
    case TelemetryStale => {}
  }

  function LimitsOf(c: Code): set<Limit> {
    match c
    case QueueWithSaturatedGPU => {QueueLimit, GPUHigh}
    case QueueWithIdleGPU => {QueueLimit, GPULow}
    case QueueGrowing => {QueueLimit}
    case QueueDeferred => {QueueLimit}
    case KVPreemption => {PreemptionLimit}
    case KVNearCapacity => {KVHigh}
    case TTFTAdmissionBound => {TTFTLimit, QueueShareLimit}
    case TTFTPrefillBound => {TTFTLimit, QueueShareLimit}
    case E2ELatencyHigh => {E2ELimit}
    case TailLatencyGap => {TailRatioLimit}
    case PrefixCacheIneffective => {PrefixLow}
    case LowTokenThroughput => {GPUHigh, TokensLow}
    case GPUMemoryPressure => {MemoryHigh}
    case ErrorRateHigh => {ErrorLimit}
    case ClientAborts => {AbortLimit}
    case AtReplicaCeiling => {QueueLimit}
    case ReplicasNotReady => {QueueLimit}
    case TelemetryIncomplete => {}
    case TelemetryStale => {}
  }

  /** The same readings, as far as the rule is concerned, at the same time. */
  predicate SameFor(c: Code, a: Snapshot, b: Snapshot) {
    a.timestamp == b.timestamp && forall m :: m in Reads(c) ==> Read(a, m) == Read(b, m)
  }

  predicate SameLimits(c: Code, a: Thresholds, b: Thresholds) {
    a.sustainFor == b.sustainFor && a.staleAfter == b.staleAfter &&
    forall l :: l in LimitsOf(c) ==> LimitOf(a, l) == LimitOf(b, l)
  }

  /** Two evaluations that differ in nothing the rule is documented to look at. */
  predicate SameEval(c: Code, a: Eval, b: Eval) {
    && a.now == b.now && a.latest.runtime == b.latest.runtime
    && (a.latest.metricsMissing == [] <==> b.latest.metricsMissing == [])
    && SameLimits(c, a.t, b.t) && SameFor(c, a.latest, b.latest)
    && |a.window| == |b.window| && forall i :: 0 <= i < |a.window| ==> SameFor(c, a.window[i], b.window[i])
  }

  lemma SameCondition(c: Code, t: Thresholds, u: Thresholds, a: Snapshot, b: Snapshot)
    requires IsSustained(c) && SameLimits(c, t, u) && SameFor(c, a, b)
    ensures Condition(c, t, a) == Condition(c, u, b)
  {
    if c.QueueWithSaturatedGPU? || c.QueueWithIdleGPU? {
      assert Read(a, Waiting) == Read(b, Waiting) && Read(a, GPUUtilization) == Read(b, GPUUtilization);
      SameQueueLimits(c, t, u);
    } else {
      SameOneCondition(c, t, u, a, b);
    }
  }

  lemma SameQueueLimits(c: Code, t: Thresholds, u: Thresholds)
    requires (c.QueueWithSaturatedGPU? || c.QueueWithIdleGPU?) && SameLimits(c, t, u)
    ensures t.queueWaitingRequests == u.queueWaitingRequests
    ensures c.QueueWithSaturatedGPU? ==> t.gpuUtilHighPct == u.gpuUtilHighPct
    ensures c.QueueWithIdleGPU? ==> t.gpuUtilLowPct == u.gpuUtilLowPct
  {
    assert LimitOf(t, QueueLimit) == LimitOf(u, QueueLimit);
    assert c.QueueWithSaturatedGPU? ==> LimitOf(t, GPUHigh) == LimitOf(u, GPUHigh);
    assert c.QueueWithIdleGPU? ==> LimitOf(t, GPULow) == LimitOf(u, GPULow);
  }

  lemma SameOneCondition(c: Code, t: Thresholds, u: Thresholds, a: Snapshot, b: Snapshot)
    requires IsSustained(c) && !c.QueueWithSaturatedGPU? && !c.QueueWithIdleGPU?
    requires SameLimits(c, t, u) && SameFor(c, a, b)
    ensures Condition(c, t, a) == Condition(c, u, b)
  {
    match c
    case KVNearCapacity =>
      assert Read(a, KVCacheUsage) == Read(b, KVCacheUsage) && LimitOf(t, KVHigh) == LimitOf(u, KVHigh);
    case E2ELatencyHigh =>
      assert Read(a, P95Latency) == Read(b, P95Latency) && LimitOf(t, E2ELimit) == LimitOf(u, E2ELimit);
    case GPUMemoryPressure =>
      assert Read(a, GPUMemory) == Read(b, GPUMemory) && LimitOf(t, MemoryHigh) == LimitOf(u, MemoryHigh);
    case ErrorRateHigh =>
      assert Read(a, ErrorRate) == Read(b, ErrorRate) && LimitOf(t, ErrorLimit) == LimitOf(u, ErrorLimit);
    case ClientAborts =>
      assert Read(a, AbortRate) == Read(b, AbortRate) && LimitOf(t, AbortLimit) == LimitOf(u, AbortLimit);
    case AtReplicaCeiling =>
      assert Read(a, Waiting) == Read(b, Waiting) && LimitOf(t, QueueLimit) == LimitOf(u, QueueLimit);
  }

  lemma SameHolds(c: Code, a: Eval, b: Eval)
    requires IsSustained(c) && SameEval(c, a, b)
    ensures Holds(a, c) == Holds(b, c)
  {
    var d := a.t.sustainFor;
    SameCondition(c, a.t, b.t, a.latest, b.latest);
    SameRecentStart(a.window, b.window, d);
    var ra, rb, start := Recent(a.window, d), Recent(b.window, d), RecentStart(a.window, d);
    forall i | 0 <= i < |ra|
      ensures ra[i].timestamp == rb[i].timestamp && ConditionOf(c, a.t)(ra[i]) == ConditionOf(c, b.t)(rb[i])
    {
      assert SameFor(c, a.window[start + i], b.window[start + i]);
      SameCondition(c, a.t, b.t, ra[i], rb[i]);
    }
    SustainedAgrees(a.latest, a.window, b.latest, b.window, d, ConditionOf(c, a.t), ConditionOf(c, b.t));
  }

  lemma SustainedAgrees(la: Snapshot, wa: Series, lb: Snapshot, wb: Series, d: int,
                        pa: Snapshot -> bool, pb: Snapshot -> bool)
    requires (wa == [] <==> wb == []) && pa(la) == pb(lb)
    requires
      var ra, rb := Recent(wa, d), Recent(wb, d);
      |ra| == |rb| && forall i :: 0 <= i < |ra| ==> ra[i].timestamp == rb[i].timestamp && pa(ra[i]) == pb(rb[i])
    ensures Sustained(la, wa, d, pa) == Sustained(lb, wb, d, pb)
  {
    var ra, rb := Recent(wa, d), Recent(wb, d);
    assert Span(ra) == Span(rb);
  }

  lemma SameRecentWaiting(a: Eval, b: Eval, d: int)
    requires SameEval(QueueGrowing, a, b)
    ensures |Recent(a.window, d)| == |Recent(b.window, d)|
    ensures forall i :: 0 <= i < |Recent(a.window, d)| ==>
      WaitingOf(Recent(a.window, d)[i]) == WaitingOf(Recent(b.window, d)[i])
  {
    SameRecentStart(a.window, b.window, d);
    var start := RecentStart(a.window, d);
    forall i | 0 <= i < |Recent(a.window, d)|
      ensures WaitingOf(Recent(a.window, d)[i]) == WaitingOf(Recent(b.window, d)[i])
    {
      assert SameFor(QueueGrowing, a.window[start + i], b.window[start + i]);
      assert Read(a.window[start + i], Waiting) == Read(b.window[start + i], Waiting);
    }
  }

  lemma SameTrendOver(ra: Series, rb: Series)
    requires |ra| == |rb| && forall i :: 0 <= i < |ra| ==> WaitingOf(ra[i]) == WaitingOf(rb[i])
    ensures TrendOver(ra, WaitingOf) == TrendOver(rb, WaitingOf)
  {
    var third := |ra| / 3;
    SameEarly(ra, rb, third);
    SameLate(ra, rb, |ra| - third);
    TrendOfMeans(ra, third, Mean(ra[..third], WaitingOf), Mean(ra[|ra| - third..], WaitingOf));
    TrendOfMeans(rb, third, Mean(ra[..third], WaitingOf), Mean(ra[|ra| - third..], WaitingOf));
  }

  lemma TrendOfMeans(r: Series, third: nat, early: Option<real>, late: Option<real>)
    requires third == |r| / 3
    requires early == Mean(r[..third], WaitingOf) && late == Mean(r[|r| - third..], WaitingOf)
    ensures TrendOver(r, WaitingOf) ==
            if |r| < MIN_TREND_SAMPLES || early == None || late == None then None
            else Some(late.value - early.value)
  {
  }

  lemma SameEarly(ra: Series, rb: Series, n: nat)
    requires n <= |ra| == |rb| && forall i :: 0 <= i < |ra| ==> WaitingOf(ra[i]) == WaitingOf(rb[i])
    ensures Mean(ra[..n], WaitingOf) == Mean(rb[..n], WaitingOf)
  {
    SameMean(ra[..n], rb[..n]);
  }

  lemma SameLate(ra: Series, rb: Series, n: nat)
    requires n <= |ra| == |rb| && forall i :: 0 <= i < |ra| ==> WaitingOf(ra[i]) == WaitingOf(rb[i])
    ensures Mean(ra[n..], WaitingOf) == Mean(rb[n..], WaitingOf)
  {
    SameMean(ra[n..], rb[n..]);
  }

  lemma SameTrend(a: Eval, b: Eval)
    requires SameEval(QueueGrowing, a, b)
    ensures Trend(a.window, a.t.sustainFor, WaitingOf) == Trend(b.window, b.t.sustainFor, WaitingOf)
  {
    var d := a.t.sustainFor * TREND_WINDOW;
    SameRecentWaiting(a, b, d);
    SameTrendOver(Recent(a.window, d), Recent(b.window, d));
  }

  lemma SameMean(a: Series, b: Series)
    requires |a| == |b| && forall i :: 0 <= i < |a| ==> WaitingOf(a[i]) == WaitingOf(b[i])
    ensures Mean(a, WaitingOf) == Mean(b, WaitingOf)
  {
    assert Values(a, WaitingOf) == Values(b, WaitingOf);
    assert AllMeasured(a, WaitingOf) <==> AllMeasured(b, WaitingOf);
  }

  /** A rule decides by the readings and limits of its catalogue entry, and by nothing else. */
  lemma RulesReadNothingElse(c: Code, a: Eval, b: Eval)
    requires SameEval(c, a, b)
    ensures c in Fired(a) <==> c in Fired(b)
  {
    EveryRuleIsEvaluated(a, c);
    EveryRuleIsEvaluated(b, c);
    SameFires(c, a, b);
  }

  lemma SameFires(c: Code, a: Eval, b: Eval)
    requires SameEval(c, a, b)
    ensures Fires(c, a) == Fires(c, b)
  {
    if c.QueueGrowing? {
      SameGrowth(a, b);
    } else if IsSustained(c) {
      SameHolds(c, a, b);
      SameCeiling(c, a, b);
    } else {
      SameLatest(c, a, b);
    }
  }

  lemma SameGrowth(a: Eval, b: Eval)
    requires SameEval(QueueGrowing, a, b)
    ensures Fires(QueueGrowing, a) == Fires(QueueGrowing, b)
  {
    SameTrend(a, b);
    SameQueueNow(a, b);
    TrendDecides(a, b);
  }

  lemma SameQueueNow(a: Eval, b: Eval)
    requires SameEval(QueueGrowing, a, b)
    ensures a.latest.requestsWaiting == b.latest.requestsWaiting
    ensures a.t.queueWaitingRequests == b.t.queueWaitingRequests
  {
    assert Read(a.latest, Waiting) == Read(b.latest, Waiting);
    assert LimitOf(a.t, QueueLimit) == LimitOf(b.t, QueueLimit);
  }

  lemma TrendDecides(a: Eval, b: Eval)
    requires a.latest.requestsWaiting == b.latest.requestsWaiting
    requires a.t.queueWaitingRequests == b.t.queueWaitingRequests
    requires Trend(a.window, a.t.sustainFor, WaitingOf) == Trend(b.window, b.t.sustainFor, WaitingOf)
    ensures Fires(QueueGrowing, a) == Fires(QueueGrowing, b)
  {
  }

  lemma SameCeiling(c: Code, a: Eval, b: Eval)
    requires IsSustained(c) && SameEval(c, a, b) && Holds(a, c) == Holds(b, c)
    ensures Fires(c, a) == Fires(c, b)
  {
    if c.AtReplicaCeiling? {
      SameReplicas(a.latest, b.latest);
      CeilingFiresWhenHeld(a);
      CeilingFiresWhenHeld(b);
    } else {
      assert c in SUSTAINED;
      FiresWhenHeld(a, c);
      FiresWhenHeld(b, c);
    }
  }

  lemma SameReplicas(s: Snapshot, u: Snapshot)
    requires SameFor(AtReplicaCeiling, s, u)
    ensures s.replicas == u.replicas && s.maxReplicas == u.maxReplicas
  {
    assert Read(s, DesiredReplicas) == Read(u, DesiredReplicas);
    assert Read(s, MaxReplicas) == Read(u, MaxReplicas);
  }

  lemma SameLatest(c: Code, a: Eval, b: Eval)
    requires !IsSustained(c) && !c.QueueGrowing? && SameEval(c, a, b)
    ensures Fires(c, a) == Fires(c, b)
  {
    if c.TTFTAdmissionBound? || c.TTFTPrefillBound? {
      SameFirstToken(c, a, b);
    } else if c.QueueDeferred? || c.ReplicasNotReady? {
      SameQueue(c, a, b);
    } else if c.LowTokenThroughput? || c.PrefixCacheIneffective? {
      SameTokens(c, a, b);
    } else {
      SameOther(c, a, b);
    }
  }

  lemma SameQueue(c: Code, a: Eval, b: Eval)
    requires (c.QueueDeferred? || c.ReplicasNotReady?) && SameEval(c, a, b)
    ensures Fires(c, a) == Fires(c, b)
  {
    var s, u := a.latest, b.latest;
    assert LimitOf(a.t, QueueLimit) == LimitOf(b.t, QueueLimit);
    if c.QueueDeferred? {
      assert Read(s, WaitingDeferred) == Read(u, WaitingDeferred);
      assert Read(s, WaitingForCapacity) == Read(u, WaitingForCapacity);
    } else {
      assert Read(s, Waiting) == Read(u, Waiting);
      assert Read(s, DesiredReplicas) == Read(u, DesiredReplicas);
      assert Read(s, ReadyReplicas) == Read(u, ReadyReplicas);
    }
  }

  lemma SameTokens(c: Code, a: Eval, b: Eval)
    requires (c.LowTokenThroughput? || c.PrefixCacheIneffective?) && SameEval(c, a, b)
    ensures Fires(c, a) == Fires(c, b)
  {
    var s, u := a.latest, b.latest;
    if c.LowTokenThroughput? {
      assert Read(s, GPUUtilization) == Read(u, GPUUtilization) && Read(s, TokensPerSecond) == Read(u, TokensPerSecond);
      assert LimitOf(a.t, GPUHigh) == LimitOf(b.t, GPUHigh) && LimitOf(a.t, TokensLow) == LimitOf(b.t, TokensLow);
    } else {
      assert Read(s, PromptTokensPerSec) == Read(u, PromptTokensPerSec);
      assert Read(s, PrefixCacheHits) == Read(u, PrefixCacheHits);
      assert LimitOf(a.t, PrefixLow) == LimitOf(b.t, PrefixLow);
    }
  }

  lemma SameOther(c: Code, a: Eval, b: Eval)
    requires c.KVPreemption? || c.TailLatencyGap? || c.TelemetryIncomplete? || c.TelemetryStale?
    requires SameEval(c, a, b)
    ensures Fires(c, a) == Fires(c, b)
  {
    var s, u := a.latest, b.latest;
    if c.KVPreemption? {
      assert Read(s, PreemptionRate) == Read(u, PreemptionRate);
      assert LimitOf(a.t, PreemptionLimit) == LimitOf(b.t, PreemptionLimit);
    } else if c.TailLatencyGap? {
      assert Read(s, P95Latency) == Read(u, P95Latency) && Read(s, P99Latency) == Read(u, P99Latency);
      assert LimitOf(a.t, TailRatioLimit) == LimitOf(b.t, TailRatioLimit);
    }
  }

  lemma SameFirstToken(c: Code, a: Eval, b: Eval)
    requires (c.TTFTAdmissionBound? || c.TTFTPrefillBound?) && SameEval(c, a, b)
    ensures Fires(c, a) == Fires(c, b)
  {
    assert Read(a.latest, TTFT) == Read(b.latest, TTFT) && Read(a.latest, QueueTime) == Read(b.latest, QueueTime);
    assert LimitOf(a.t, TTFTLimit) == LimitOf(b.t, TTFTLimit);
    assert LimitOf(a.t, QueueShareLimit) == LimitOf(b.t, QueueShareLimit);
    assert QueueShareOfTTFT(a.latest) == QueueShareOfTTFT(b.latest);
  }

  // ---------------------------------------------------------------------------
  // Valid limits
  // ---------------------------------------------------------------------------

  const PERCENTAGES: set<Limit> :=
    {GPUHigh, GPULow, MemoryHigh, KVHigh, QueueShareLimit, PrefixLow, ErrorLimit, AbortLimit}
  const AMOUNTS: set<Limit> := {QueueLimit, PreemptionLimit, TTFTLimit, E2ELimit, TokensLow}

  /** What validation accepts: the idle band below the saturated one, and every limit in its range. */
  lemma ValidExactlyWhen(t: Thresholds)
    ensures t.Valid() <==>
      && LimitOf(t, GPULow) < LimitOf(t, GPUHigh)
      && (forall l :: l in PERCENTAGES ==> 0.0 <= LimitOf(t, l) <= 100.0)
      && (forall l :: l in AMOUNTS ==> 0.0 <= LimitOf(t, l))
      && 1.0 <= LimitOf(t, TailRatioLimit) && 0 <= t.sustainFor && 0 < t.staleAfter
  {
    if (forall l :: l in PERCENTAGES ==> 0.0 <= LimitOf(t, l) <= 100.0) {
      assert 0.0 <= LimitOf(t, GPUHigh) <= 100.0 && 0.0 <= LimitOf(t, GPULow) <= 100.0;
      assert 0.0 <= LimitOf(t, MemoryHigh) <= 100.0 && 0.0 <= LimitOf(t, KVHigh) <= 100.0;
      assert 0.0 <= LimitOf(t, QueueShareLimit) <= 100.0 && 0.0 <= LimitOf(t, PrefixLow) <= 100.0;
      assert 0.0 <= LimitOf(t, ErrorLimit) <= 100.0 && 0.0 <= LimitOf(t, AbortLimit) <= 100.0;
    }
    if (forall l :: l in AMOUNTS ==> 0.0 <= LimitOf(t, l)) {
      assert 0.0 <= LimitOf(t, QueueLimit) && 0.0 <= LimitOf(t, PreemptionLimit) && 0.0 <= LimitOf(t, TTFTLimit);
      assert 0.0 <= LimitOf(t, E2ELimit) && 0.0 <= LimitOf(t, TokensLow);
    }
  }

  // ---------------------------------------------------------------------------
  // Severity, runtime and suppression
  // ---------------------------------------------------------------------------

  /** The edges of the documented suppression graph, from the rule that suppresses. */
  const SUPPRESSION: set<(Code, Code)> := {
    (AtReplicaCeiling, QueueWithSaturatedGPU),
    (QueueDeferred, QueueWithSaturatedGPU), (QueueDeferred, QueueWithIdleGPU),
    (KVPreemption, KVNearCapacity),
    (QueueWithSaturatedGPU, E2ELatencyHigh), (QueueWithIdleGPU, E2ELatencyHigh),
    (TTFTAdmissionBound, E2ELatencyHigh), (TTFTPrefillBound, E2ELatencyHigh)}

  lemma SuppressionIsDocumented(c: Code, d: Code)
    ensures d in Supersedes(c) <==> (c, d) in SUPPRESSION
  {
  }

  const CRITICAL: set<Code> := {QueueGrowing, KVPreemption, ErrorRateHigh, AtReplicaCeiling, ReplicasNotReady}
  const INFO: set<Code> := {TailLatencyGap, PrefixCacheIneffective, LowTokenThroughput, TelemetryIncomplete}

  lemma SeverityIsDocumented(c: Code)
    ensures SeverityOf(c) == if c in CRITICAL then Critical else if c in INFO then Info else Warning
  {
  }

  /** IFA-CAP-004 and IFA-EFF-001 are for vLLM only; the others are for every runtime. */
  lemma RuntimesAreDocumented(c: Code, runtime: Runtime)
    ensures AppliesTo(c, runtime) <==> runtime == Vllm || (CodeText(c) != "IFA-CAP-004" && CodeText(c) != "IFA-EFF-001")
  {
    CodeTextsAreDistinct(c);
    CodeTextsAreDistinct(QueueDeferred);
    CodeTextsAreDistinct(PrefixCacheIneffective);
  }
}
