/** The step after every collection cycle: Analyze, then Notify (cmd/control-plane/main.go). */
module Cycle {
  import opened Telemetry
  import opened TelemetryStore
  import opened Sorting
  import opened Seqs
  import opened KeyOrder
  import opened Window
  import opened Rules
  import opened Engine
  import opened AlertProtocol
  import opened AlertRuns
  import opened AlertSender
  import opened RuleAlerts

  /** The findings reported for a workload when its window is this series. */
  ghost predicate ReportsOver(part: seq<Recommendation>, snap: Snapshot, series: Series, t: Thresholds, now: int) {
    Reports(part, Survivors(Fired(Eval(snap, series, t, now))), snap)
  }

  /** What the store kept of a workload reaches further back than any rule looks. */
  predicate ReachesFarEnough(store: Store, snap: Snapshot, t: Thresholds)
    reads store
  {
    Span(SeriesOf(store.data, snap.Key())) > t.sustainFor * TREND_WINDOW
  }

  /**
    Analyzes what the store holds and hands the findings to the sender. Its findings
    always have distinct IDs, so each cycle attempts exactly the outstanding transitions
    and leaves outstanding exactly what the queue was too full for. They are the findings
    of the retained window, and of everything that was ever stored for a workload whose
    window is long enough.
    */
  method OnCycle(sender: Sender, store: Store, t: Thresholds, analyzedAt: int, notifiedAt: int)
    returns (recs: seq<Recommendation>, ghost report: Alerts,
             ghost byKey: seq<Snapshot>, ghost parts: seq<seq<Recommendation>>)
    requires Inv(sender.View()) && sender.pos == Idle && store.Valid()
    modifies sender
    ensures Inv(sender.View()) && sender.pos == Idle
    ensures SortedBy(KeyLess, byKey) && forall s :: s in byKey <==> IsNewest(store.data, s)
    ensures |parts| == |byKey| && recs == Flatten(parts)
    ensures forall i :: 0 <= i < |byKey| ==>
      ReportsOver(parts[i], byKey[i], SeriesOf(store.data, byKey[i].Key()), t, analyzedAt)
    ensures WellTimed(store.ops) && store.retention.maxPerWorkload > 0 && t.sustainFor > 0 ==>
      forall i :: 0 <= i < |byKey| && ReachesFarEnough(store, byKey[i], t) ==>
        ReportsOver(parts[i], byKey[i], FullHistory(store.ops, byKey[i].Key()), t, analyzedAt)
    ensures AllRuleMade(recs) && DistinctIds(recs)
    ensures AboutToReturn(report) && report.pos.call.recs == recs && report.pos.call.now == notifiedAt
    ensures
      var findings := Findings(recs, sender.minSeverity);
      && report.pos.call.tried == Outstanding(old(sender.open), findings)
      && report.pos.call.lost == Outstanding(sender.open, findings)
      && (report.pos.call.lost == {} ==> sender.open.Keys == findings.Keys)
  {
    var latest := store.Latest();
    recs, byKey, parts := Analyze(latest, store.History(), t, analyzedAt);
    SameMembers(byKey, latest);
    forall i | 0 <= i < |byKey|
      ensures ReportsOver(parts[i], byKey[i], SeriesOf(store.data, byKey[i].Key()), t, analyzedAt)
      ensures WellTimed(store.ops) && store.retention.maxPerWorkload > 0 && t.sustainFor > 0 &&
              ReachesFarEnough(store, byKey[i], t) ==>
                ReportsOver(parts[i], byKey[i], FullHistory(store.ops, byKey[i].Key()), t, analyzedAt)
    {
      assert byKey[i] in latest;
      if WellTimed(store.ops) && store.retention.maxPerWorkload > 0 && t.sustainFor > 0 &&
         ReachesFarEnough(store, byKey[i], t) {
        FiredOverFullHistory(store.ops, store.retention, byKey[i], t, analyzedAt);
      }
    }
    PartsAreRuleMade(parts, byKey, store, t, analyzedAt);
    ghost var trace;
    trace, report := sender.Notify(recs, notifiedAt);
    SettledMeansSynchronised(sender.open, recs, sender.minSeverity);
  }

  lemma {:induction false} PartsAreRuleMade(parts: seq<seq<Recommendation>>, byKey: seq<Snapshot>, store: Store,
                                            t: Thresholds, now: int)
    requires |parts| == |byKey|
    requires forall i :: 0 <= i < |byKey| ==>
      ReportsOver(parts[i], byKey[i], SeriesOf(store.data, byKey[i].Key()), t, now)
    ensures AllRuleMade(Flatten(parts))
  {
    if parts != [] {
      var n := |parts| - 1;
      PartsAreRuleMade(parts[..n], byKey[..n], store, t, now);
      assert ReportsOver(parts[n], byKey[n], SeriesOf(store.data, byKey[n].Key()), t, now);
      forall i | 0 <= i < |parts[n]|
        ensures RuleMade(parts[n][i])
      {
        assert parts[n][i] in parts[n];
      }
    }
  }

  /** Every rule decides on the retained window as it would on everything ever stored. */
  lemma FiredOverFullHistory(ops: seq<Op>, r: Retention, latest: Snapshot, t: Thresholds, now: int)
    requires WellTimed(ops) && r.maxPerWorkload > 0 && t.sustainFor > 0
    requires Span(SeriesOf(Run(ops, r), latest.Key())) > t.sustainFor * TREND_WINDOW
    ensures Fired(Eval(latest, SeriesOf(Run(ops, r), latest.Key()), t, now)) ==
            Fired(Eval(latest, FullHistory(ops, latest.Key()), t, now))
  {
    var kept, full := SeriesOf(Run(ops, r), latest.Key()), FullHistory(ops, latest.Key());
    forall c: Code
      ensures Fires(c, Eval(latest, kept, t, now)) == Fires(c, Eval(latest, full, t, now))
    {
      StoreAnswersLikeFullHistory(ops, r, latest.Key(), latest, t.sustainFor, ConditionOf(c, t), WaitingOf);
      WindowMattersOnlyThere(c, Eval(latest, kept, t, now), Eval(latest, full, t, now));
    }
  }

  /** A rule looks at its window only through Sustained and Trend. */
  lemma WindowMattersOnlyThere(c: Code, a: Eval, b: Eval)
    requires a.latest == b.latest && a.t == b.t && a.now == b.now
    requires Holds(a, c) == Holds(b, c)
    requires Trend(a.window, a.t.sustainFor, WaitingOf) == Trend(b.window, b.t.sustainFor, WaitingOf)
    ensures Fires(c, a) == Fires(c, b)
  {
    match c
    case QueueGrowing => GrowthMattersOnlyThere(a, b);
    case AtReplicaCeiling =>
    case QueueWithSaturatedGPU =>
    case QueueWithIdleGPU =>
    case KVNearCapacity =>
    case E2ELatencyHigh =>
    case GPUMemoryPressure =>
    case ErrorRateHigh =>
    case ClientAborts =>
    case _ => WindowDoesNotMatter(c, a, b);
  }

  lemma GrowthMattersOnlyThere(a: Eval, b: Eval)
    requires a.latest == b.latest && a.t == b.t
    requires Trend(a.window, a.t.sustainFor, WaitingOf) == Trend(b.window, b.t.sustainFor, WaitingOf)
    ensures Fires(QueueGrowing, a) == Fires(QueueGrowing, b)
  {
  }

  /** These rules look at the latest snapshot alone. */
  lemma WindowDoesNotMatter(c: Code, a: Eval, b: Eval)
    requires a.latest == b.latest && a.t == b.t && a.now == b.now
    requires c in {QueueDeferred, KVPreemption, TTFTAdmissionBound, TTFTPrefillBound, TailLatencyGap,
                   PrefixCacheIneffective, LowTokenThroughput, ReplicasNotReady,
                   TelemetryIncomplete, TelemetryStale}
    ensures Fires(c, a) == Fires(c, b)
  {
  }
}
