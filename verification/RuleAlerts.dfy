/** The alerts of the shipped rules, over every run of the sender. */
module RuleAlerts {
  import opened Telemetry
  import opened Rules
  import opened Engine
  import opened AlertPayloads
  import opened AlertProtocol

  ghost predicate RuleMade(rec: Recommendation) {
    exists c: Code, snap: Snapshot :: rec == RecFor(c, snap)
  }

  ghost predicate AllRuleMade(recs: seq<Recommendation>) {
    forall i :: 0 <= i < |recs| ==> RuleMade(recs[i])
  }

  /** Every call of Notify in the run is handed findings of the shipped rules. */
  ghost predicate OnlyRules(steps: seq<Step>) {
    forall i :: 0 <= i < |steps| && steps[i].Begin? ==> AllRuleMade(steps[i].recs)
  }

  ghost predicate RuleOpened(id: string, a: OpenAlert) {
    exists c: Code, snap: Snapshot :: id == RecFor(c, snap).id && a == NewOpenAlert(RecFor(c, snap))
  }

  predicate NoneEscalated(ps: seq<Payload>) {
    forall i :: 0 <= i < |ps| ==> !ps[i].event.Escalated?
  }

  ghost predicate RulesInv(s: Alerts) {
    && (forall id :: id in s.open ==> RuleOpened(id, s.open[id]))
    && (s.pos.Scanning? ==> AllRuleMade(s.pos.call.recs))
    && NoneEscalated(s.line.accepted)
  }

  /** A rule keeps its severity, so its finding is never more severe than its open alert. */
  lemma SameIdSameSeverity(open: map<string, OpenAlert>, rec: Recommendation)
    requires RuleMade(rec) && rec.id in open && RuleOpened(rec.id, open[rec.id])
    ensures !Outdated(open, rec)
  {
    var c: Code, a: Snapshot :| rec.id == RecFor(c, a).id && open[rec.id] == NewOpenAlert(RecFor(c, a));
    var d: Code, b: Snapshot :| rec == RecFor(d, b);
    IdsAreDistinct(c, a.Key(), d, b.Key());
  }

  lemma ScanKeepsRules(s: Alerts)
    requires RulesInv(s) && Enabled(s, Scan)
    ensures RulesInv(ApplyScan(s))
  {
    var rec := s.pos.call.recs[s.pos.next];
    assert RuleMade(rec);
    if rec.id in s.open {
      SameIdSameSeverity(s.open, rec);
    } else {
      var c: Code, snap: Snapshot :| rec == RecFor(c, snap);
      assert RuleOpened(rec.id, NewOpenAlert(rec));
    }
  }

  lemma StepKeepsRules(s: Alerts, a: Step)
    requires RulesInv(s) && Enabled(s, a) && (a.Begin? ==> AllRuleMade(a.recs))
    ensures RulesInv(Apply(s, a))
  {
    match a
    case Scan => ScanKeepsRules(s);
    case Begin(_, _) =>
    case EndScan =>
    case Resolve(_) =>
    case Return =>
    case Goroutine(_) =>
  }

  lemma {:induction false} RunKeepsRules(s: Alerts, steps: seq<Step>)
    requires RulesInv(s) && OnlyRules(steps) && Exec(s, steps).Reached?
    ensures RulesInv(Exec(s, steps).alerts)
    decreases |steps|
  {
    if steps != [] {
      StepKeepsRules(s, steps[0]);
      RunKeepsRules(Apply(s, steps[0]), steps[1..]);
    }
  }

  /** However cycles and deliveries interleave, the shipped rules never escalate an alert. */
  lemma RulesNeverEscalate(capacity: nat, minSeverity: Severity, cluster: string, steps: seq<Step>)
    requires OnlyRules(steps) && Exec(Init(capacity, minSeverity, cluster), steps).Reached?
    ensures NoneEscalated(Exec(Init(capacity, minSeverity, cluster), steps).alerts.line.accepted)
  {
    RunKeepsRules(Init(capacity, minSeverity, cluster), steps);
  }
}
