/** The alert guarantees, for every interleaving of Notify, delivery and Close. */
module AlertRuns {
  import opened Telemetry
  import opened AlertPayloads
  import opened AlertWords
  import opened Seqs
  import opened AlertProtocol
  import opened NotifyCalls
  import Queue = DeliveryQueue

  ghost predicate Inv(s: Alerts) {
    CoreInv(s) && CallInv(s)
  }

  lemma InitInv(capacity: nat, minSeverity: Severity, cluster: string)
    ensures Inv(Init(capacity, minSeverity, cluster))
  {
  }

  lemma StepKeepsInv(s: Alerts, a: Step)
    requires Inv(s) && Enabled(s, a)
    ensures Inv(Apply(s, a))
  {
    StepKeepsCore(s, a);
    StepKeepsCall(s, a);
  }

  lemma {:induction false} RunKeepsInv(s: Alerts, steps: seq<Step>)
    requires Inv(s) && Exec(s, steps).Reached?
    ensures Inv(Exec(s, steps).alerts)
    ensures Exec(s, steps).alerts.minSeverity == s.minSeverity
    decreases |steps|
  {
    if steps != [] {
      StepKeepsInv(s, steps[0]);
      RunKeepsInv(Apply(s, steps[0]), steps[1..]);
    }
  }

  /** A state some run of the sender reaches. */
  ghost predicate Reachable(s: Alerts) {
    exists capacity: nat, cluster: string, steps: seq<Step> ::
      Exec(Init(capacity, s.minSeverity, cluster), steps) == Reached(s)
  }

  lemma ReachableInv(s: Alerts)
    requires Reachable(s)
    ensures Inv(s)
  {
    var capacity: nat, cluster: string, steps: seq<Step> :|
      Exec(Init(capacity, s.minSeverity, cluster), steps) == Reached(s);
    InitInv(capacity, s.minSeverity, cluster);
    RunKeepsInv(Init(capacity, s.minSeverity, cluster), steps);
  }

  lemma ReachableNext(s: Alerts, a: Step)
    requires Reachable(s) && Enabled(s, a)
    ensures Reachable(Apply(s, a))
  {
    var capacity: nat, cluster: string, steps: seq<Step> :|
      Exec(Init(capacity, s.minSeverity, cluster), steps) == Reached(s);
    ExecAppend(Init(capacity, s.minSeverity, cluster), steps, a);
  }

  /**
    In every reachable state the alerts accepted for an ID are whole episodes
    (firing, escalations of strictly rising severity, resolved) and at most one
    unfinished episode; the ID is open exactly during one, with its last severity.
    */
  lemma AcceptedAlertsFormEpisodes(s: Alerts, id: string)
    requires Reachable(s)
    ensures
      var w := Word(s.line.accepted, id);
      && WordOk(w)
      && (id in s.open <==> MidEpisode(w))
      && (id in s.open ==> s.open[id] == IdentityOf(w[|w| - 1]))
  {
    ReachableInv(s);
    assert Agrees(s.open, s.line.accepted, id);
  }

  /** An episode has no more escalations than the configured severity leaves room for. */
  lemma AtMostTwoEscalations(s: Alerts, id: string, start: nat, n: nat)
    requires Reachable(s)
    requires s.minSeverity in {Info, Warning, Critical}
    requires start + n < |Word(s.line.accepted, id)|
    requires Word(s.line.accepted, id)[start].event == Firing
    requires forall j :: start < j <= start + n ==> Word(s.line.accepted, id)[j].event == Escalated
    ensures n <= s.minSeverity.Rank() <= 2
  {
    AcceptedAlertsFormEpisodes(s, id);
    ReachableInv(s);
    EscalationsAreBounded(Word(s.line.accepted, id), start, n);
    FilterMembers(s.line.accepted, Concerns(id));
    assert Word(s.line.accepted, id)[start] in Word(s.line.accepted, id);
  }

  /**
    Conservation: every relevant finding was accepted, dropped or suppressed; what was
    accepted is delivered, given up on, in flight or queued, in that order; each
    payload was posted once or twice, twice only after a retryable error.
    */
  lemma NothingIsLostSilently(s: Alerts)
    requires Reachable(s)
    ensures s.seen == CountFindings(s.line.accepted) + s.lostFindings + s.suppressed
    ensures s.line.dropped == s.lostFindings + s.lostResolutions
    ensures s.line.accepted == Queue.Payloads(s.line.completed) + Queue.InFlight(s.line) + s.line.queue
    ensures |s.line.accepted| == s.line.sent + s.line.failed + |Queue.InFlight(s.line)| + |s.line.queue|
    ensures forall d :: d in s.line.completed ==>
      && 1 <= |d.outcomes| <= 2
      && (|d.outcomes| == 2 ==> d.outcomes[0] == Queue.Retryable)
      && (d.outcomes[|d.outcomes| - 1] == Queue.Retryable ==> |d.outcomes| == 2)
  {
    ReachableInv(s);
    forall d | d in s.line.completed
      ensures Queue.DeliveryOk(d, 2)
    {
      var i :| 0 <= i < |s.line.completed| && s.line.completed[i] == d;
    }
  }

  /** The moment Notify has walked everything and is about to return. */
  predicate AboutToReturn(s: Alerts) {
    s.pos.Resolving? && s.pos.todo == {}
  }

  lemma ReturnKeepsInv(s: Alerts, steps: seq<Step>, t: Alerts)
    requires Inv(s) && Exec(s, steps) == Reached(t) && AboutToReturn(t)
    ensures Inv(t) && Enabled(t, Return) && Inv(t.(pos := Idle)) && t.(pos := Idle) == Apply(t, Return)
  {
    RunKeepsInv(s, steps);
    StepKeepsInv(t, Return);
  }

  /**
    One call of Notify on findings with distinct IDs attempts each outstanding
    transition once and no other, leaves outstanding exactly those it dropped, and
    suppresses every other relevant finding.
    */
  lemma NotifyAttemptsWhatIsOutstanding(s: Alerts)
    requires Inv(s) && AboutToReturn(s) && DistinctIds(s.pos.call.recs)
    ensures
      var call := s.pos.call;
      var findings := Findings(call.recs, s.minSeverity);
      && call.tried == Outstanding(call.openBefore, findings)
      && call.lost == Outstanding(s.open, findings)
      && s.line.offered == call.offeredBefore + |call.tried|
      && s.line.dropped == call.droppedBefore + |call.lost|
      && s.suppressed == call.suppressedBefore + |findings.Keys - call.tried|
  {
    var call := s.pos.call;
    var findings := Findings(call.recs, s.minSeverity);
    var done := findings.Keys + (call.openBefore.Keys - {});
    forall id: string
      ensures id in call.tried <==> id in Outstanding(call.openBefore, findings)
      ensures id in call.lost <==> id in Outstanding(s.open, findings)
    {
      assert IdInv(s.open, findings, call, done, id);
      FindingsKeyedById(call.recs, s.minSeverity, id);
    }
  }

  /** What a finding leaves open for its ID: what was open at that severity or a higher one, else itself. */
  predicate OpenedBy(before: map<string, OpenAlert>, after: map<string, OpenAlert>, rec: Recommendation) {
    rec.id in after &&
    if rec.id in before && before[rec.id].severity.Rank() <= rec.severity.Rank() then
      after[rec.id] == before[rec.id]
    else
      after[rec.id] ==
        OpenAlert(rec.id, rec.code, rec.severity, rec.namespace, rec.workloadName, rec.runtime, rec.title)
  }

  /**
    What a call makes of the open alerts, said of the findings themselves: every finding at
    or above the minimum severity ends up open or was lost; an ID without one is forgotten
    or its resolution was lost; and what was lost is as it was.
    */
  ghost predicate UpToDate(before: map<string, OpenAlert>, after: map<string, OpenAlert>, lost: set<string>,
                           recs: seq<Recommendation>, minSeverity: Severity)
  {
    && (forall i :: 0 <= i < |recs| && recs[i].severity.Rank() <= minSeverity.Rank() ==>
          if recs[i].id in lost then SameAt(after, before, recs[i].id) else OpenedBy(before, after, recs[i]))
    && (forall id: string :: (forall i :: 0 <= i < |recs| && recs[i].id == id ==>
                                recs[i].severity.Rank() > minSeverity.Rank()) ==>
          if id in lost then SameAt(after, before, id) && id in before else id !in after)
  }

  lemma CallBringsUpToDate(s: Alerts)
    requires Inv(s) && AboutToReturn(s) && DistinctIds(s.pos.call.recs)
    ensures UpToDate(s.pos.call.openBefore, s.open, s.pos.call.lost, s.pos.call.recs, s.minSeverity)
  {
    var call := s.pos.call;
    var findings := Findings(call.recs, s.minSeverity);
    forall i | 0 <= i < |call.recs| && call.recs[i].severity.Rank() <= s.minSeverity.Rank()
      ensures if call.recs[i].id in call.lost then SameAt(s.open, call.openBefore, call.recs[i].id)
              else OpenedBy(call.openBefore, s.open, call.recs[i])
    {
      FindingIsUpToDate(s, i);
    }
    forall id: string | (forall i :: 0 <= i < |call.recs| && call.recs[i].id == id ==>
                           call.recs[i].severity.Rank() > s.minSeverity.Rank())
      ensures if id in call.lost then SameAt(s.open, call.openBefore, id) && id in call.openBefore else id !in s.open
    {
      AbsenceIsUpToDate(s, id);
    }
  }

  lemma FindingIsUpToDate(s: Alerts, i: nat)
    requires Inv(s) && AboutToReturn(s) && DistinctIds(s.pos.call.recs) && i < |s.pos.call.recs|
    requires s.pos.call.recs[i].severity.Rank() <= s.minSeverity.Rank()
    ensures
      var rec := s.pos.call.recs[i];
      if rec.id in s.pos.call.lost then SameAt(s.open, s.pos.call.openBefore, rec.id)
      else OpenedBy(s.pos.call.openBefore, s.open, rec)
  {
    var call, id := s.pos.call, s.pos.call.recs[i].id;
    var findings := Findings(call.recs, s.minSeverity);
    assert SevereEnough(call.recs, s.minSeverity, id, i);
    FindingsAreThoseSevereEnough(call.recs, s.minSeverity, id);
    assert IdInv(s.open, findings, call, findings.Keys + (call.openBefore.Keys - {}), id);
  }

  lemma AbsenceIsUpToDate(s: Alerts, id: string)
    requires Inv(s) && AboutToReturn(s) && DistinctIds(s.pos.call.recs)
    requires forall i :: 0 <= i < |s.pos.call.recs| && s.pos.call.recs[i].id == id ==>
      s.pos.call.recs[i].severity.Rank() > s.minSeverity.Rank()
    ensures
      if id in s.pos.call.lost then SameAt(s.open, s.pos.call.openBefore, id) && id in s.pos.call.openBefore
      else id !in s.open
  {
    var call := s.pos.call;
    var findings := Findings(call.recs, s.minSeverity);
    FindingsAreThoseSevereEnough(call.recs, s.minSeverity, id);
    assert forall i: nat :: !SevereEnough(call.recs, s.minSeverity, id, i);
    assert IdInv(s.open, findings, call, findings.Keys + (call.openBefore.Keys - {}), id);
  }

  lemma {:induction false} FindingsKeyedById(recs: seq<Recommendation>, minSeverity: Severity, id: string)
    ensures id in Findings(recs, minSeverity) ==> Findings(recs, minSeverity)[id].id == id
  {
    if recs != [] {
      FindingsKeyedById(recs[..|recs| - 1], minSeverity, id);
    }
  }

  /** Nothing is outstanding exactly when the open IDs are the findings' and none has risen. */
  lemma SettledMeansSynchronised(open: map<string, OpenAlert>, recs: seq<Recommendation>, minSeverity: Severity)
    ensures
      var findings := Findings(recs, minSeverity);
      Outstanding(open, findings) == {} <==>
        && open.Keys == findings.Keys
        && forall id :: id in findings && id in open ==>
             open[id].severity.Rank() <= findings[id].severity.Rank()
  {
    var findings := Findings(recs, minSeverity);
    forall id: string
      ensures id in findings ==> findings[id].id == id
    {
      FindingsKeyedById(recs, minSeverity, id);
    }
    if Outstanding(open, findings) == {} {
      forall id | id in findings.Keys + open.Keys
        ensures id in open && id in findings && open[id].severity.Rank() <= findings[id].severity.Rank()
      {
        assert id !in Outstanding(open, findings);
      }
    }
  }

  lemma SameEverywhere(a: map<string, OpenAlert>, b: map<string, OpenAlert>)
    requires forall id: string :: SameAt(a, b, id)
    ensures a == b
  {
    forall id | id in a.Keys + b.Keys
      ensures id in a && id in b && a[id] == b[id]
    {
      assert SameAt(a, b, id);
    }
    assert a.Keys == b.Keys;
  }

  /** Repeating a settled evaluation sends nothing, changes nothing and only counts. */
  lemma SettledNotifyOnlySuppresses(s: Alerts)
    requires Inv(s) && AboutToReturn(s) && DistinctIds(s.pos.call.recs)
    requires Outstanding(s.pos.call.openBefore, Findings(s.pos.call.recs, s.minSeverity)) == {}
    ensures s.open == s.pos.call.openBefore
    ensures s.line.offered == s.pos.call.offeredBefore
    ensures s.suppressed == s.pos.call.suppressedBefore + |Findings(s.pos.call.recs, s.minSeverity)|
  {
    NotifyAttemptsWhatIsOutstanding(s);
    var call := s.pos.call;
    var findings := Findings(call.recs, s.minSeverity);
    forall id: string
      ensures SameAt(s.open, call.openBefore, id)
    {
      assert IdInv(s.open, findings, call, findings.Keys + (call.openBefore.Keys - {}), id);
    }
    assert findings.Keys - {} == findings.Keys;
    SameEverywhere(s.open, call.openBefore);
  }
}
