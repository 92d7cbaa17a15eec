/** Suppression, ordering and identity of findings: Analyze of internal/recommender/recommender.go. */
module Engine {
  import opened Telemetry
  import opened TelemetryStore
  import opened KeyOrder
  import opened Rules
  import opened Sorting
  import opened Seqs
  import opened Text
  import AlertProtocol

  // ---------------------------------------------------------------------------
  // The rule catalogue
  // ---------------------------------------------------------------------------

  const ALL_CODES: set<Code> := {
    QueueWithSaturatedGPU, QueueWithIdleGPU, QueueGrowing, QueueDeferred,
    KVPreemption, KVNearCapacity,
    TTFTAdmissionBound, TTFTPrefillBound, E2ELatencyHigh, TailLatencyGap,
    PrefixCacheIneffective, LowTokenThroughput, GPUMemoryPressure,
    ErrorRateHigh, ClientAborts, AtReplicaCeiling, ReplicasNotReady,
    TelemetryIncomplete, TelemetryStale}

  function CodeText(c: Code): string {
    match c
    case QueueWithSaturatedGPU => "IFA-CAP-001"
    case QueueWithIdleGPU => "IFA-CAP-002"
    case QueueGrowing => "IFA-CAP-003"
    case QueueDeferred => "IFA-CAP-004"
    case KVPreemption => "IFA-KV-001"
    case KVNearCapacity => "IFA-KV-002"
    case TTFTAdmissionBound => "IFA-LAT-001"
    case TTFTPrefillBound => "IFA-LAT-002"
    case E2ELatencyHigh => "IFA-LAT-003"
    case TailLatencyGap => "IFA-LAT-004"
    case PrefixCacheIneffective => "IFA-EFF-001"
    case LowTokenThroughput => "IFA-EFF-002"
    case GPUMemoryPressure => "IFA-EFF-003"
    case ErrorRateHigh => "IFA-ERR-001"
    case ClientAborts => "IFA-ERR-002"
    case AtReplicaCeiling => "IFA-SCL-001"
    case ReplicasNotReady => "IFA-SCL-002"
    case TelemetryIncomplete => "IFA-OBS-001"
    case TelemetryStale => "IFA-OBS-002"
  }

  function TitleOf(c: Code): string {
    match c
    case QueueWithSaturatedGPU => "Requests queueing while the GPU is saturated"
    case QueueWithIdleGPU => "Requests queueing while the GPU is idle"
    case QueueGrowing => "Queue is growing, not just deep"
    case QueueDeferred => "Waiting requests are deferred, not capacity-bound"
    case KVPreemption => "KV cache exhausted: requests are being preempted"
    case KVNearCapacity => "KV cache near capacity"
    case TTFTAdmissionBound => "Time to first token dominated by queueing"
    case TTFTPrefillBound => "Time to first token dominated by prefill"
    case E2ELatencyHigh => "End-to-end p95 latency above target"
    case TailLatencyGap => "Tail latency far above p95"
    case PrefixCacheIneffective => "Prefix cache is not paying for itself"
    case LowTokenThroughput => "GPU busy but token throughput low"
    case GPUMemoryPressure => "GPU memory near capacity"
    case ErrorRateHigh => "Elevated error rate"
    case ClientAborts => "Clients are abandoning requests"
    case AtReplicaCeiling => "Saturated at the replica ceiling"
    case ReplicasNotReady => "Replicas unavailable while the queue builds"
    case TelemetryIncomplete => "Telemetry incomplete for this workload"
    case TelemetryStale => "Telemetry is stale"
  }

  function SeverityOf(c: Code): Severity {
    match c
    case QueueGrowing => Critical
    case KVPreemption => Critical
    case ErrorRateHigh => Critical
    case AtReplicaCeiling => Critical
    case ReplicasNotReady => Critical
    case TailLatencyGap => Info
    case PrefixCacheIneffective => Info
    case LowTokenThroughput => Info
    case TelemetryIncomplete => Info
    case _ => Warning
  }

  /** The codes whose findings a rule replaces on the same workload. */
  function Supersedes(c: Code): set<Code> {
    match c
    case QueueWithSaturatedGPU => {E2ELatencyHigh}
    case QueueWithIdleGPU => {E2ELatencyHigh}
    case QueueDeferred => {QueueWithSaturatedGPU, QueueWithIdleGPU}
    case KVPreemption => {KVNearCapacity}
    case TTFTAdmissionBound => {E2ELatencyHigh}
    case TTFTPrefillBound => {E2ELatencyHigh}
    case AtReplicaCeiling => {QueueWithSaturatedGPU}
    case _ => {}
  }

  predicate AppliesTo(c: Code, runtime: Runtime) {
    c in {QueueDeferred, PrefixCacheIneffective} ==> runtime == Vllm
  }

  function Fired(e: Eval): set<Code> {
    set c | c in ALL_CODES && AppliesTo(c, e.latest.runtime) && Fires(c, e)
  }

  lemma EveryRuleIsEvaluated(e: Eval, c: Code)
    ensures c in Fired(e) <==> AppliesTo(c, e.latest.runtime) && Fires(c, e)
  {
  }

  /** A rule suppresses whether or not it is itself suppressed. */
  predicate IsSuperseded(fired: set<Code>, c: Code) {
    exists d :: d in fired && c in Supersedes(d)
  }

  function Survivors(fired: set<Code>): set<Code> {
    set c | c in fired && !IsSuperseded(fired, c)
  }

  // ---------------------------------------------------------------------------
  // Suppression never silences everything
  // ---------------------------------------------------------------------------

  function Level(c: Code): nat {
    match c
    case QueueDeferred => 2
    case AtReplicaCeiling => 2
    case QueueWithSaturatedGPU => 1
    case QueueWithIdleGPU => 1
    case KVPreemption => 1
    case TTFTAdmissionBound => 1
    case TTFTPrefillBound => 1
    case _ => 0
  }

  lemma SupersessionClimbs(c: Code, d: Code)
    requires c in Supersedes(d)
    ensures Level(c) < Level(d) <= 2
  {
  }

  /** d supersedes c directly or through rules that fired as well. */
  ghost predicate Explains(fired: set<Code>, d: Code, c: Code)
    decreases 3 - Level(c)
  {
    && Level(c) <= 2
    && (c in Supersedes(d) ||
        exists m :: m in fired && c in Supersedes(m) && Level(c) < Level(m) <= 2 && Explains(fired, d, m))
  }

  /** Every suppressed finding has a surviving one that explains it. */
  lemma {:induction false} SuppressedIsExplained(fired: set<Code>, c: Code)
    requires c in fired && c !in Survivors(fired)
    ensures exists d :: d in Survivors(fired) && Explains(fired, d, c)
    decreases 3 - Level(c)
  {
    var m :| m in fired && c in Supersedes(m);
    SupersessionClimbs(c, m);
    if m in Survivors(fired) {
      assert Explains(fired, m, c);
    } else {
      SuppressedIsExplained(fired, m);
      var d :| d in Survivors(fired) && Explains(fired, d, m);
      assert Explains(fired, d, c);
    }
  }

  /** So a workload is reported clean only if no rule fired. */
  lemma SilentOnlyWhenNothingFired(fired: set<Code>)
    ensures Survivors(fired) == {} <==> fired == {}
  {
    if c :| c in fired {
      if c !in Survivors(fired) {
        SuppressedIsExplained(fired, c);
      }
    }
  }

  // ---------------------------------------------------------------------------
  // Order
  // ---------------------------------------------------------------------------

  /** Most severe first, then by code. */
  predicate Before(a: Recommendation, b: Recommendation) {
    || a.severity.Rank() < b.severity.Rank()
    || (a.severity.Rank() == b.severity.Rank() && StringLess(a.code, b.code))
  }

  lemma BeforeIsStrict(a: Recommendation, b: Recommendation)
    ensures !(Before(a, b) && Before(b, a))
  {
    StringLessIsTotal(a.code, b.code);
  }

  lemma BeforeIsTransitive(a: Recommendation, b: Recommendation, c: Recommendation)
    requires Before(a, b) && Before(b, c)
    ensures Before(a, c)
  {
    if StringLess(a.code, b.code) && StringLess(b.code, c.code) {
      StringLessIsTransitive(a.code, b.code, c.code);
    }
  }

  // ---------------------------------------------------------------------------
  // Identity
  // ---------------------------------------------------------------------------

  /** Reads a code back from its text. */
  function Decode(t: string): Code
    requires |t| >= 10
  {
    var n := t[|t| - 1];
    match t[4]
    case 'C' =>
      if n == '1' then QueueWithSaturatedGPU else if n == '2' then QueueWithIdleGPU
      else if n == '3' then QueueGrowing else QueueDeferred
    case 'K' => if n == '1' then KVPreemption else KVNearCapacity
    case 'L' =>
      if n == '1' then TTFTAdmissionBound else if n == '2' then TTFTPrefillBound
      else if n == '3' then E2ELatencyHigh else TailLatencyGap
    case 'E' =>
      if t[5] == 'F' then
        if n == '1' then PrefixCacheIneffective else if n == '2' then LowTokenThroughput else GPUMemoryPressure
      else if n == '1' then ErrorRateHigh else ClientAborts
    case 'S' => if n == '1' then AtReplicaCeiling else ReplicasNotReady
    case _ => if n == '1' then TelemetryIncomplete else TelemetryStale
  }

  lemma CodeTextsAreDistinct(c: Code)
    ensures |CodeText(c)| >= 10 && Decode(CodeText(c)) == c
    ensures ':' !in CodeText(c)
  {
  }

  function RecommendationId(c: Code, key: string): string {
    CodeText(c) + ":" + key
  }

  /** An ID names one rule on one workload. */
  lemma IdsAreDistinct(c: Code, k: string, d: Code, l: string)
    requires RecommendationId(c, k) == RecommendationId(d, l)
    ensures c == d && k == l
  {
    CodeTextsAreDistinct(c);
    CodeTextsAreDistinct(d);
    var id := RecommendationId(c, k);
    assert id == CodeText(c) + (":" + k) && id == CodeText(d) + (":" + l);
    SpanNotIs(CodeText(c), ":" + k, {':'});
    SpanNotIs(CodeText(d), ":" + l, {':'});
    var n := SpanNot(id, {':'});
    assert id[..n] == CodeText(c) == CodeText(d);
    assert id[n + 1..] == k == l;
  }

  function RecFor(c: Code, snap: Snapshot): Recommendation {
    Recommendation(RecommendationId(c, snap.Key()), CodeText(c), SeverityOf(c), snap.namespace,
                   snap.workloadName, snap.runtime, TitleOf(c), snap.timestamp)
  }

  // ---------------------------------------------------------------------------
  // One workload
  // ---------------------------------------------------------------------------

  /** The findings reported for a workload: in order, and exactly the survivors'. */
  ghost predicate Reports(out: seq<Recommendation>, codes: set<Code>, snap: Snapshot) {
    && SortedBy(Before, out)
    && (forall r :: r in out ==> exists c :: c in codes && r == RecFor(c, snap))
    && forall c :: c in codes ==> RecFor(c, snap) in out
  }

  /** Each finding names its rule and the workload and reading it is about. */
  predicate Describes(r: Recommendation, snap: Snapshot) {
    && r.id == r.code + ":" + snap.Key()
    && r.namespace == snap.namespace && r.workloadName == snap.workloadName
    && r.runtime == snap.runtime && r.observedAt == snap.timestamp
  }

  /** The more severe first, and within one severity by code as in a dictionary. */
  ghost predicate MostSevereFirst(out: seq<Recommendation>) {
    forall i, j :: 0 <= i < j < |out| ==>
      || out[i].severity.Rank() < out[j].severity.Rank()
      || (out[i].severity.Rank() == out[j].severity.Rank() && InDictionaryOrder(out[i].code, out[j].code))
  }

  /** The rule's finding is in the report, or some rule that fired as well suppresses it. */
  ghost predicate ReportedOrSuperseded(out: seq<Recommendation>, fired: set<Code>, c: Code) {
    || (exists r :: r in out && r.code == CodeText(c) && r.severity == SeverityOf(c) && r.title == TitleOf(c))
    || exists d :: d in fired && c in Supersedes(d)
  }

  /** What a report says of the rules that fired, each way. */
  lemma ReportIsOfWhatFired(out: seq<Recommendation>, fired: set<Code>, snap: Snapshot)
    requires Reports(out, Survivors(fired), snap)
    ensures forall c :: c in fired ==> ReportedOrSuperseded(out, fired, c)
    ensures forall r :: r in out ==> Describes(r, snap) && exists c :: c in fired && r.code == CodeText(c)
    ensures MostSevereFirst(out)
  {
    forall c | c in fired
      ensures ReportedOrSuperseded(out, fired, c)
    {
      if c in Survivors(fired) {
        assert RecFor(c, snap) in out;
      }
    }
    forall i, j | 0 <= i < j < |out|
      ensures out[i].severity.Rank() < out[j].severity.Rank() ||
              (out[i].severity.Rank() == out[j].severity.Rank() && InDictionaryOrder(out[i].code, out[j].code))
    {
      assert Before(out[i], out[j]);
      StringLessIsDictionaryOrder(out[i].code, out[j].code);
    }
  }

  /** However the map of findings was walked, the report is the same. */
  lemma ReportIsUnique(a: seq<Recommendation>, b: seq<Recommendation>, codes: set<Code>, snap: Snapshot)
    requires Reports(a, codes, snap) && Reports(b, codes, snap)
    ensures a == b
  {
    forall x, y | Before(x, y)
      ensures !Before(y, x)
    {
      BeforeIsStrict(x, y);
    }
    SortedIsUnique(Before, a, b);
  }

  /** Evaluates every rule that applies, noting what it fired and what that supersedes. */
  method EvaluateRules(e: Eval) returns (fired: map<Code, Recommendation>, superseded: set<Code>)
    ensures fired.Keys == Fired(e)
    ensures forall c :: c in fired ==> fired[c] == RecFor(c, e.latest)
    ensures forall c :: c in superseded <==> IsSuperseded(fired.Keys, c)
  {
    fired, superseded := map[], {};
    var rules := ALL_CODES;
    while rules != {}
      invariant rules <= ALL_CODES
      invariant fired.Keys == Fired(e) - rules
      invariant forall c :: c in fired ==> fired[c] == RecFor(c, e.latest)
      invariant forall c :: c in superseded <==> IsSuperseded(fired.Keys, c)
      decreases |rules|
    {
      var rule :| rule in rules;
      rules := rules - {rule};
      if AppliesTo(rule, e.latest.runtime) && Fires(rule, e) {
        fired := fired[rule := RecFor(rule, e.latest)];
        superseded := superseded + Supersedes(rule);
      }
    }
  }

  method AnalyzeWorkload(snap: Snapshot, hist: Series, t: Thresholds, now: int) returns (out: seq<Recommendation>)
    ensures Reports(out, Survivors(Fired(Eval(snap, hist, t, now))), snap)
    ensures forall c :: c in Fired(Eval(snap, hist, t, now)) ==>
      ReportedOrSuperseded(out, Fired(Eval(snap, hist, t, now)), c)
    ensures MostSevereFirst(out) && forall r :: r in out ==> Describes(r, snap)
  {
    var fired, superseded := EvaluateRules(Eval(snap, hist, t, now));
    out := [];
    var todo := fired.Keys;
    ghost var done: set<Code> := {};
    while todo != {}
      invariant todo <= fired.Keys
      invariant forall c :: c in done <==> c in fired && c !in superseded && c !in todo
      invariant Reports(out, done, snap)
      decreases |todo|
    {
      var code :| code in todo;
      if code !in superseded {
        out := Insert(out, done, code, snap);
        done := done + {code};
      }
      todo := todo - {code};
    }
    assert done == Survivors(fired.Keys);
    ReportIsOfWhatFired(out, fired.Keys, snap);
  }

  method Insert(rs: seq<Recommendation>, ghost codes: set<Code>, code: Code, snap: Snapshot)
    returns (out: seq<Recommendation>)
    requires Reports(rs, codes, snap) && code !in codes
    ensures Reports(out, codes + {code}, snap)
  {
    var r := RecFor(code, snap);
    var i := |rs|;
    while i > 0 && Before(r, rs[i - 1])
      invariant 0 <= i <= |rs|
      invariant forall j :: i <= j < |rs| ==> Before(r, rs[j])
    {
      i := i - 1;
    }
    out := rs[..i] + [r] + rs[i..];
    InsertedReports(rs, codes, code, snap, i, out);
  }

  lemma ComesBefore(a: Recommendation, code: Code, other: Code, snap: Snapshot)
    requires a == RecFor(other, snap) && other != code && !Before(RecFor(code, snap), a)
    ensures Before(a, RecFor(code, snap))
  {
    CodeTextsAreDistinct(code);
    CodeTextsAreDistinct(other);
    StringLessIsTotal(CodeText(code), CodeText(other));
  }

  lemma InsertedReports(rs: seq<Recommendation>, codes: set<Code>, code: Code, snap: Snapshot, i: nat,
                        out: seq<Recommendation>)
    requires Reports(rs, codes, snap) && code !in codes && i <= |rs|
    requires forall j :: i <= j < |rs| ==> Before(RecFor(code, snap), rs[j])
    requires i > 0 ==> !Before(RecFor(code, snap), rs[i - 1])
    requires out == rs[..i] + [RecFor(code, snap)] + rs[i..]
    ensures Reports(out, codes + {code}, snap)
  {
    if i > 0 {
      BeforeInserted(rs, codes, code, snap, i);
    }
    InsertKeepsOrder(rs, RecFor(code, snap), i, out);
    InsertKeepsMembers(rs, codes, code, snap, i, out);
  }

  lemma BeforeInserted(rs: seq<Recommendation>, codes: set<Code>, code: Code, snap: Snapshot, i: nat)
    requires Reports(rs, codes, snap) && code !in codes && 0 < i <= |rs|
    requires !Before(RecFor(code, snap), rs[i - 1])
    ensures forall j :: 0 <= j < i ==> Before(rs[j], RecFor(code, snap))
  {
    var r, last := RecFor(code, snap), rs[i - 1];
    assert last in rs;
    var other :| other in codes && last == RecFor(other, snap);
    ComesBefore(last, code, other, snap);
    BeforeLast(rs, i, r);
  }

  lemma BeforeLast(rs: seq<Recommendation>, i: nat, r: Recommendation)
    requires SortedBy(Before, rs) && 0 < i <= |rs| && Before(rs[i - 1], r)
    ensures forall j :: 0 <= j < i ==> Before(rs[j], r)
  {
    forall j | 0 <= j < i - 1
      ensures Before(rs[j], r)
    {
      BeforeIsTransitive(rs[j], rs[i - 1], r);
    }
  }

  lemma InsertKeepsOrder(rs: seq<Recommendation>, r: Recommendation, i: nat, out: seq<Recommendation>)
    requires SortedBy(Before, rs) && i <= |rs| && out == rs[..i] + [r] + rs[i..]
    requires forall j :: 0 <= j < i ==> Before(rs[j], r)
    requires forall j :: i <= j < |rs| ==> Before(r, rs[j])
    ensures SortedBy(Before, out)
  {
  }

  lemma InsertKeepsMembers(rs: seq<Recommendation>, codes: set<Code>, code: Code, snap: Snapshot, i: nat,
                           out: seq<Recommendation>)
    requires Reports(rs, codes, snap) && i <= |rs| && out == rs[..i] + [RecFor(code, snap)] + rs[i..]
    ensures forall r :: r in out ==> exists c :: c in codes + {code} && r == RecFor(c, snap)
    ensures forall c :: c in codes + {code} ==> RecFor(c, snap) in out
  {
    var rec, more := RecFor(code, snap), codes + {code};
    assert forall r :: r in out <==> r == rec || r in rs by {
      InsertMembers(rs, rec, i);
    }
    assert codes <= more && code in more;
  }

  // ---------------------------------------------------------------------------
  // All workloads
  // ---------------------------------------------------------------------------

  /**
    What is reported of a workload: the survivors of what fires on its history, or on the
    latest snapshot alone when there is none.
    */
  ghost predicate ReportsOn(part: seq<Recommendation>, snap: Snapshot, history: string -> Series,
                            t: Thresholds, now: int)
  {
    var window := if history(snap.Key()) == [] then [snap] else history(snap.Key());
    Reports(part, Survivors(Fired(Eval(snap, window, t, now))), snap)
  }

  method AnalyzeOne(snap: Snapshot, history: string -> Series, t: Thresholds, now: int)
    returns (part: seq<Recommendation>)
    ensures ReportsOn(part, snap, history, t, now)
  {
    var hist := history(snap.Key());
    if hist == [] {
      hist := [snap];
    }
    part := AnalyzeWorkload(snap, hist, t, now);
  }

  ghost predicate IdAmong(r: Recommendation, snaps: seq<Snapshot>) {
    exists c, i :: 0 <= i < |snaps| && r.id == RecommendationId(c, snaps[i].Key())
  }

  ghost predicate IdsAmong(out: seq<Recommendation>, snaps: seq<Snapshot>) {
    forall r :: r in out ==> IdAmong(r, snaps)
  }

  /**
    Evaluates the workloads in key order. `parts` are the reports it concatenates. When no
    two workloads share a key no two findings share an ID, which is what the alert sender
    relies on.
    */
  method Analyze(latest: seq<Snapshot>, history: string -> Series, t: Thresholds, now: int)
    returns (out: seq<Recommendation>, ghost byKey: seq<Snapshot>, ghost parts: seq<seq<Recommendation>>)
    ensures InKeyOrder(byKey) && Bag(byKey) == Bag(latest)
    ensures |parts| == |byKey| && out == Flatten(parts)
    ensures forall i :: 0 <= i < |byKey| ==> ReportsOn(parts[i], byKey[i], history, t, now)
    ensures DistinctKeys(latest) ==> SortedBy(KeyLess, byKey) && AlertProtocol.DistinctIds(out)
  {
    var sorted := SortByKey(latest);
    byKey, out, parts := sorted, [], [];
    for i := 0 to |sorted|
      invariant |parts| == i && out == Flatten(parts)
      invariant forall k :: 0 <= k < i ==> ReportsOn(parts[k], byKey[k], history, t, now)
      invariant IdsOk(out, byKey, i)
    {
      var part := AnalyzeOne(sorted[i], history, t, now);
      NextReportIsOk(out, part, byKey, i, history, t, now);
      FlattenNext(parts, part);
      out := out + part;
      parts := parts + [part];
    }
  }

  lemma FlattenNext<T>(parts: seq<seq<T>>, part: seq<T>)
    ensures Flatten(parts + [part]) == Flatten(parts) + part
  {
    assert (parts + [part])[..|parts|] == parts;
  }

  function Flatten<T>(parts: seq<seq<T>>): seq<T> {
    if parts == [] then [] else Flatten(parts[..|parts| - 1]) + parts[|parts| - 1]
  }

  lemma ReportHasDistinctIds(part: seq<Recommendation>, codes: set<Code>, snap: Snapshot)
    requires Reports(part, codes, snap)
    ensures AlertProtocol.DistinctIds(part)
  {
    forall i, j | 0 <= i < j < |part|
      ensures part[i].id != part[j].id
    {
      assert part[i] in part && part[j] in part;
      var c :| c in codes && part[i] == RecFor(c, snap);
      var d :| d in codes && part[j] == RecFor(d, snap);
      assert Before(part[i], part[j]);
      BeforeIsStrict(part[i], part[j]);
      if c != d && part[i].id == part[j].id {
        IdsAreDistinct(c, snap.Key(), d, snap.Key());
      }
    }
  }

  lemma NextReportIsDistinct(out: seq<Recommendation>, part: seq<Recommendation>, byKey: seq<Snapshot>, i: nat,
                             codes: set<Code>)
    requires i < |byKey| && DistinctKeys(byKey)
    requires AlertProtocol.DistinctIds(out) && IdsAmong(out, byKey[..i]) && Reports(part, codes, byKey[i])
    ensures AlertProtocol.DistinctIds(out + part) && IdsAmong(out + part, byKey[..i + 1])
  {
    ReportHasDistinctIds(part, codes, byKey[i]);
    forall a, b | a in out && b in part
      ensures a.id != b.id
    {
      var c, k :| 0 <= k < |byKey[..i]| && a.id == RecommendationId(c, byKey[..i][k].Key());
      var d :| d in codes && b == RecFor(d, byKey[i]);
      if a.id == b.id {
        IdsAreDistinct(c, byKey[k].Key(), d, byKey[i].Key());
      }
    }
    AppendedIds(out, part);
    forall r | r in out + part
      ensures IdAmong(r, byKey[..i + 1])
    {
      if r in out {
        var c, k :| 0 <= k < |byKey[..i]| && r.id == RecommendationId(c, byKey[..i][k].Key());
        assert byKey[..i + 1][k] == byKey[..i][k];
      } else {
        var c :| c in codes && r == RecFor(c, byKey[i]);
        assert byKey[..i + 1][i] == byKey[i];
      }
    }
  }

  /** What is known of the IDs after the first i workloads. */
  ghost predicate IdsOk(out: seq<Recommendation>, byKey: seq<Snapshot>, i: nat)
    requires i <= |byKey|
  {
    DistinctKeys(byKey) ==> AlertProtocol.DistinctIds(out) && IdsAmong(out, byKey[..i])
  }

  lemma NextReportIsOk(out: seq<Recommendation>, part: seq<Recommendation>, byKey: seq<Snapshot>, i: nat,
                       history: string -> Series, t: Thresholds, now: int)
    requires i < |byKey| && IdsOk(out, byKey, i) && ReportsOn(part, byKey[i], history, t, now)
    ensures IdsOk(out + part, byKey, i + 1)
  {
    if DistinctKeys(byKey) {
      var snap := byKey[i];
      var window := if history(snap.Key()) == [] then [snap] else history(snap.Key());
      NextReportIsDistinct(out, part, byKey, i, Survivors(Fired(Eval(snap, window, t, now))));
    }
  }

  lemma AppendedIds(a: seq<Recommendation>, b: seq<Recommendation>)
    requires AlertProtocol.DistinctIds(a) && AlertProtocol.DistinctIds(b)
    requires forall x, y :: x in a && y in b ==> x.id != y.id
    ensures AlertProtocol.DistinctIds(a + b)
  {
  }
}
