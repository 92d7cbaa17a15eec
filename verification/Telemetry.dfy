/** The values the rest of the system exchanges: internal/telemetry/metric.go and types.go. */
module Telemetry {

  datatype Option<+T> = None | Some(value: T)

  /** An optional measurement. Nothing may look at `value` unless `ok` holds. */
  datatype Metric = Metric(value: real, ok: bool) {
    predicate Above(threshold: real) {
      ok && value > threshold
    }

    predicate Below(threshold: real) {
      ok && value < threshold
    }
  }

  datatype Severity = Info | Warning | Critical | Unknown(name: string) {
    /** Highest severity first; an unrecognised severity sorts after all others. */
    function Rank(): (r: nat)
      ensures r <= 3
    {
      match this
      case Critical => 0
      case Warning => 1
      case Info => 2
      case Unknown(_) => 3
    }
  }

  /** Critical outranks Warning, Warning outranks Info, and Info outranks anything unknown. */
  lemma RanksInOrder(name: string, other: string)
    ensures Critical.Rank() < Warning.Rank() < Info.Rank() < Unknown(name).Rank() == Unknown(other).Rank()
  {
  }

  datatype Runtime = Vllm | Triton

  /** One reading of one workload: its identity, and the measurements the rules look at. */
  datatype Snapshot = Snapshot(
    timestamp: int,
    namespace: string,
    workloadName: string,
    runtime: Runtime,
    tokensPerSecond: Metric,
    promptTokensPerSec: Metric,
    p95LatencyMs: Metric,
    p99LatencyMs: Metric,
    ttftP95Ms: Metric,
    queueTimeP95Ms: Metric,
    requestsWaiting: Metric,
    waitingForCapacity: Metric,
    waitingDeferred: Metric,
    gpuUtilizationPct: Metric,
    gpuMemoryUsedPct: Metric,
    kvCacheUsagePct: Metric,
    preemptionsPerSec: Metric,
    prefixCacheHitRatePct: Metric,
    errorRatePct: Metric,
    abortRatePct: Metric,
    replicas: Metric,
    readyReplicas: Metric,
    maxReplicas: Metric,
    metricsMissing: seq<string>)
  {
    function Key(): string {
      if namespace == "" then workloadName else namespace + "/" + workloadName
    }

    function Age(now: int): int {
      now - timestamp
    }
  }

  /**
    Two workloads whose namespaces have no slash share a key exactly when they are the same
    one, or one has no namespace and the other's namespace and name spelled out as its name.
    */
  lemma KeysCollideExactlyWhen(a: Snapshot, b: Snapshot)
    requires '/' !in a.namespace && '/' !in b.namespace
    ensures a.Key() == b.Key() <==>
      || (a.namespace == b.namespace && a.workloadName == b.workloadName)
      || (a.namespace == "" && b.namespace != "" && a.workloadName == b.namespace + "/" + b.workloadName)
      || (b.namespace == "" && a.namespace != "" && b.workloadName == a.namespace + "/" + a.workloadName)
  {
    if a.namespace != "" && b.namespace != "" {
      SlashSplits(a.namespace, a.workloadName, b.namespace, b.workloadName);
    }
  }

  lemma SlashSplits(a: string, x: string, b: string, y: string)
    requires '/' !in a && '/' !in b
    ensures a + "/" + x == b + "/" + y <==> a == b && x == y
  {
    var s, t := a + "/" + x, b + "/" + y;
    if s == t {
      assert s[|a|] == '/' && t[|b|] == '/';
      assert forall i :: 0 <= i < |a| ==> s[i] == a[i] && a[i] in a;
      assert forall i :: 0 <= i < |b| ==> t[i] == b[i] && b[i] in b;
      assert s[..|a|] == a && t[..|b|] == b && s[|a| + 1..] == x && t[|b| + 1..] == y;
    }
  }

  /** One diagnosis for one workload, without its explanatory text. */
  datatype Recommendation = Recommendation(
    id: string,
    code: string,
    severity: Severity,
    namespace: string,
    workloadName: string,
    runtime: Runtime,
    title: string,
    observedAt: int)
}
