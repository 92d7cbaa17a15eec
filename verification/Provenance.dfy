/** Where every accepted alert comes from: the findings of some call of Notify, or their absence. */
module Provenance {
  import opened Telemetry
  import opened AlertPayloads
  import opened AlertProtocol
  import opened AlertRuns

  /** A firing or escalated alert carries a finding of the call that is severe enough, as of that call. */
  predicate Carries(p: Payload, cluster: string, minSeverity: Severity, rec: Recommendation, now: int) {
    && rec.severity.Rank() <= minSeverity.Rank()
    && p.id == rec.id && p.code == rec.code && p.severity == rec.severity
    && p.namespace == rec.namespace && p.workload == rec.workloadName
    && p.runtime == rec.runtime && p.title == rec.title
    && p.observedAt == Some(rec.observedAt) && p.sentAt == now && p.cluster == cluster
  }

  /** A resolved alert is sent by a call none of whose findings is about its ID and severe enough. */
  predicate Misses(p: Payload, cluster: string, minSeverity: Severity, recs: seq<Recommendation>, now: int) {
    && (forall i :: 0 <= i < |recs| && recs[i].id == p.id ==> recs[i].severity.Rank() > minSeverity.Rank())
    && p.observedAt == None && p.severity == Info && p.sentAt == now && p.cluster == cluster
  }

  predicate ComesFrom(p: Payload, cluster: string, minSeverity: Severity, recs: seq<Recommendation>, now: int) {
    if p.event == Resolved then Misses(p, cluster, minSeverity, recs, now)
    else exists i :: 0 <= i < |recs| && Carries(p, cluster, minSeverity, recs[i], now)
  }

  /** Some call of Notify among the steps accounts for the alert. */
  ghost predicate Accounted(p: Payload, cluster: string, minSeverity: Severity, steps: seq<Step>) {
    exists k :: 0 <= k < |steps| && steps[k].Begin? &&
      ComesFrom(p, cluster, minSeverity, steps[k].recs, steps[k].now)
  }

  ghost predicate CallAmong(call: Call, steps: seq<Step>) {
    exists k :: 0 <= k < |steps| && steps[k].Begin? && steps[k].recs == call.recs && steps[k].now == call.now
  }

  /** Every alert is accounted for by the steps so far, and so is the call that is going on. */
  ghost predicate AllAccounted(s: Alerts, past: seq<Step>) {
    && (forall i :: 0 <= i < |s.line.accepted| ==> Accounted(s.line.accepted[i], s.cluster, s.minSeverity, past))
    && (s.pos.Scanning? ==> CallAmong(s.pos.call, past))
    && (s.pos.Resolving? ==>
          && CallAmong(s.pos.call, past)
          && forall id :: id in s.pos.todo ==> id !in Present(s.pos.call.recs, s.minSeverity))
  }

  lemma MoreSteps(p: Payload, cluster: string, minSeverity: Severity, past: seq<Step>, a: Step)
    requires Accounted(p, cluster, minSeverity, past)
    ensures Accounted(p, cluster, minSeverity, past + [a])
  {
    var k :| 0 <= k < |past| && past[k].Begin? &&
      ComesFrom(p, cluster, minSeverity, past[k].recs, past[k].now);
    assert (past + [a])[k] == past[k];
  }

  lemma CallStays(call: Call, past: seq<Step>, a: Step)
    requires CallAmong(call, past)
    ensures CallAmong(call, past + [a])
  {
    var k :| 0 <= k < |past| && past[k].Begin? && past[k].recs == call.recs && past[k].now == call.now;
    assert (past + [a])[k] == past[k];
  }

  lemma ByCall(p: Payload, cluster: string, minSeverity: Severity, call: Call, steps: seq<Step>)
    requires CallAmong(call, steps) && ComesFrom(p, cluster, minSeverity, call.recs, call.now)
    ensures Accounted(p, cluster, minSeverity, steps)
  {
    var k :| 0 <= k < |steps| && steps[k].Begin? && steps[k].recs == call.recs && steps[k].now == call.now;
    assert ComesFrom(p, cluster, minSeverity, steps[k].recs, steps[k].now);
  }

  lemma {:induction false} SevereEnoughIsPresent(recs: seq<Recommendation>, minSeverity: Severity, i: nat)
    requires i < |recs| && recs[i].severity.Rank() <= minSeverity.Rank()
    ensures recs[i].id in Present(recs, minSeverity)
  {
    if i < |recs| - 1 {
      SevereEnoughIsPresent(recs[..|recs| - 1], minSeverity, i);
    }
  }

  /** The transition of a finding carries it. */
  lemma TransitionCarries(s: Alerts, past: seq<Step>)
    requires Enabled(s, Scan) && CallAmong(s.pos.call, past)
    requires Relevant(s.pos.call.recs[s.pos.next], s.minSeverity)
    ensures Accounted(Transition(s, s.pos.call.recs[s.pos.next], s.pos.call.now), s.cluster, s.minSeverity, past)
  {
    var call, rec := s.pos.call, s.pos.call.recs[s.pos.next];
    var p := Transition(s, rec, call.now);
    assert Carries(p, s.cluster, s.minSeverity, call.recs[s.pos.next], call.now);
    ByCall(p, s.cluster, s.minSeverity, call, past);
  }

  lemma ResolutionMisses(s: Alerts, id: string, past: seq<Step>)
    requires Enabled(s, Resolve(id)) && CallAmong(s.pos.call, past) && s.open[id].id == id
    requires id !in Present(s.pos.call.recs, s.minSeverity)
    ensures Accounted(ResolvedPayload(s.open[id], s.cluster, s.pos.call.now), s.cluster, s.minSeverity, past)
  {
    var call, p := s.pos.call, ResolvedPayload(s.open[id], s.cluster, s.pos.call.now);
    forall i | 0 <= i < |call.recs| && call.recs[i].id == p.id
      ensures call.recs[i].severity.Rank() > s.minSeverity.Rank()
    {
      if call.recs[i].severity.Rank() <= s.minSeverity.Rank() {
        SevereEnoughIsPresent(call.recs, s.minSeverity, i);
      }
    }
    ByCall(p, s.cluster, s.minSeverity, call, past);
  }

  /** A step that accepts at most one more alert, which is accounted for, keeps all accounted for. */
  lemma OneMoreAccounted(s: Alerts, t: Alerts, past: seq<Step>, a: Step, p: Payload)
    requires AllAccounted(s, past) && t.cluster == s.cluster && t.minSeverity == s.minSeverity
    requires t.line.accepted == s.line.accepted ||
             (t.line.accepted == s.line.accepted + [p] && Accounted(p, s.cluster, s.minSeverity, past))
    ensures forall i :: 0 <= i < |t.line.accepted| ==>
      Accounted(t.line.accepted[i], t.cluster, t.minSeverity, past + [a])
  {
    forall i | 0 <= i < |t.line.accepted|
      ensures Accounted(t.line.accepted[i], t.cluster, t.minSeverity, past + [a])
    {
      if i < |s.line.accepted| {
        MoreSteps(s.line.accepted[i], s.cluster, s.minSeverity, past, a);
      } else {
        MoreSteps(p, s.cluster, s.minSeverity, past, a);
      }
    }
  }

  lemma NoneMoreAccounted(s: Alerts, t: Alerts, past: seq<Step>, a: Step)
    requires AllAccounted(s, past) && t.cluster == s.cluster && t.minSeverity == s.minSeverity
    requires t.line.accepted == s.line.accepted
    ensures forall i :: 0 <= i < |t.line.accepted| ==>
      Accounted(t.line.accepted[i], t.cluster, t.minSeverity, past + [a])
  {
    forall i | 0 <= i < |t.line.accepted|
      ensures Accounted(t.line.accepted[i], t.cluster, t.minSeverity, past + [a])
    {
      MoreSteps(s.line.accepted[i], s.cluster, s.minSeverity, past, a);
    }
  }

  lemma SameCall(call: Call, other: Call, past: seq<Step>, a: Step)
    requires CallAmong(call, past) && other.recs == call.recs && other.now == call.now
    ensures CallAmong(other, past + [a])
  {
    CallStays(call, past, a);
  }

  lemma ScanIsAccounted(s: Alerts, past: seq<Step>)
    requires Enabled(s, Scan) && AllAccounted(s, past)
    ensures AllAccounted(ApplyScan(s), past + [Scan])
  {
    var t, call, rec := ApplyScan(s), s.pos.call, s.pos.call.recs[s.pos.next];
    SameCall(call, t.pos.call, past, Scan);
    if Relevant(rec, s.minSeverity) && Outdated(s.open, rec) {
      TransitionCarries(s, past);
      OneMoreAccounted(s, t, past, Scan, Transition(s, rec, call.now));
    } else {
      NoneMoreAccounted(s, t, past, Scan);
    }
  }

  lemma ResolveIsAccounted(s: Alerts, id: string, past: seq<Step>)
    requires Enabled(s, Resolve(id)) && AllAccounted(s, past) && s.open[id].id == id
    ensures AllAccounted(ApplyResolve(s, id), past + [Resolve(id)])
  {
    var t := ApplyResolve(s, id);
    ResolutionMisses(s, id, past);
    SameCall(s.pos.call, t.pos.call, past, Resolve(id));
    OneMoreAccounted(s, t, past, Resolve(id), ResolvedPayload(s.open[id], s.cluster, s.pos.call.now));
  }

  lemma BeginIsAccounted(s: Alerts, recs: seq<Recommendation>, now: int, past: seq<Step>)
    requires Enabled(s, Begin(recs, now)) && AllAccounted(s, past)
    ensures AllAccounted(Apply(s, Begin(recs, now)), past + [Begin(recs, now)])
  {
    var t := Apply(s, Begin(recs, now));
    NoneMoreAccounted(s, t, past, Begin(recs, now));
    assert (past + [Begin(recs, now)])[|past|] == Begin(recs, now);
  }

  lemma StepIsAccounted(s: Alerts, a: Step, past: seq<Step>)
    requires Inv(s) && Enabled(s, a) && AllAccounted(s, past)
    ensures AllAccounted(Apply(s, a), past + [a])
  {
    match a
    case Begin(recs, now) => BeginIsAccounted(s, recs, now, past);
    case Scan => ScanIsAccounted(s, past);
    case EndScan =>
      NoneMoreAccounted(s, Apply(s, a), past, a);
      CallStays(s.pos.call, past, a);
    case Resolve(id) =>
      assert Agrees(s.open, s.line.accepted, id);
      ResolveIsAccounted(s, id, past);
    case Return => NoneMoreAccounted(s, Apply(s, a), past, a);
    case Goroutine(b) =>
      NoneMoreAccounted(s, Apply(s, a), past, a);
      if !s.pos.Idle? {
        CallStays(s.pos.call, past, a);
      }
  }

  lemma {:induction false} RunIsAccounted(s: Alerts, steps: seq<Step>, past: seq<Step>)
    requires Inv(s) && AllAccounted(s, past) && Exec(s, steps).Reached?
    ensures AllAccounted(Exec(s, steps).alerts, past + steps)
    decreases |steps|
  {
    if steps == [] {
      assert past + steps == past;
    } else {
      StepIsAccounted(s, steps[0], past);
      StepKeepsInv(s, steps[0]);
      RunIsAccounted(Apply(s, steps[0]), steps[1..], past + [steps[0]]);
      assert past + [steps[0]] + steps[1..] == past + steps;
    }
  }

  /**
    Every alert a run accepts comes from a call of Notify in that run: a firing or escalated
    one carries a finding of the call at or above the minimum severity, field by field; a
    resolved one is about an ID the call had no such finding for.
    */
  lemma EveryAlertIsAccounted(capacity: nat, minSeverity: Severity, cluster: string, steps: seq<Step>, i: nat)
    requires Exec(Init(capacity, minSeverity, cluster), steps).Reached?
    requires i < |Exec(Init(capacity, minSeverity, cluster), steps).alerts.line.accepted|
    ensures Accounted(Exec(Init(capacity, minSeverity, cluster), steps).alerts.line.accepted[i],
                      cluster, minSeverity, steps)
  {
    var s := Init(capacity, minSeverity, cluster);
    InitInv(capacity, minSeverity, cluster);
    RunIsAccounted(s, steps, []);
    RunKeepsConfiguration(s, steps);
    assert [] + steps == steps;
  }

  lemma {:induction false} RunKeepsConfiguration(s: Alerts, steps: seq<Step>)
    requires Exec(s, steps).Reached?
    ensures Exec(s, steps).alerts.cluster == s.cluster && Exec(s, steps).alerts.minSeverity == s.minSeverity
    decreases |steps|
  {
    if steps != [] {
      RunKeepsConfiguration(Apply(s, steps[0]), steps[1..]);
    }
  }
}
