/**
  What one call of Notify does, whatever the delivering goroutine does meanwhile:
  it attempts exactly the outstanding transitions, and leaves outstanding exactly
  those the full queue made it drop.
  */
module NotifyCalls {
  import opened Telemetry
  import opened AlertPayloads
  import opened AlertProtocol
  import Queue = DeliveryQueue

  predicate SameAt(a: map<string, OpenAlert>, b: map<string, OpenAlert>, id: string) {
    && (id in a <==> id in b)
    && (id in a && id in b ==> a[id] == b[id])
  }

  /** The open map records for this ID exactly what the findings say. */
  predicate Current(open: map<string, OpenAlert>, findings: map<string, Recommendation>, id: string) {
    if id in findings then id in open && open[id] == NewOpenAlert(findings[id]) else id !in open
  }

  /** `done` are the IDs this call has dealt with. */
  predicate IdInv(open: map<string, OpenAlert>, findings: map<string, Recommendation>,
                  call: Call, done: set<string>, id: string)
  {
    if id in done then
      && (id in call.tried <==> IsOutstanding(call.openBefore, findings, id))
      && (if id in call.tried && id !in call.lost then Current(open, findings, id)
          else SameAt(open, call.openBefore, id))
    else
      id !in call.tried && SameAt(open, call.openBefore, id)
  }

  ghost predicate IdsInv(open: map<string, OpenAlert>, findings: map<string, Recommendation>,
                         call: Call, done: set<string>)
  {
    forall id: string :: IdInv(open, findings, call, done, id)
  }

  predicate CountInv(s: Alerts, call: Call, scanned: set<string>) {
    && call.lost <= call.tried
    && s.line.offered == call.offeredBefore + |call.tried|
    && s.line.dropped == call.droppedBefore + |call.lost|
    && s.suppressed == call.suppressedBefore + |scanned - call.tried|
  }

  ghost predicate ScanningInv(s: Alerts, call: Call, next: nat)
    requires next <= |call.recs|
  {
    var scanned := Present(call.recs[..next], s.minSeverity);
    && IdsInv(s.open, Findings(call.recs, s.minSeverity), call, scanned)
    && CountInv(s, call, scanned)
  }

  ghost predicate ResolvingInv(s: Alerts, call: Call, todo: set<string>) {
    var findings := Findings(call.recs, s.minSeverity);
    && todo <= call.openBefore.Keys - findings.Keys
    && IdsInv(s.open, findings, call, findings.Keys + (call.openBefore.Keys - todo))
    && CountInv(s, call, findings.Keys)
  }

  ghost predicate CallInv(s: Alerts) {
    match s.pos
    case Idle => true
    case Scanning(call, next) =>
      next <= |call.recs| && (DistinctIds(call.recs) ==> ScanningInv(s, call, next))
    case Resolving(call, todo) =>
      DistinctIds(call.recs) ==> ResolvingInv(s, call, todo)
  }

  lemma FindingsNext(recs: seq<Recommendation>, minSeverity: Severity, next: nat)
    requires next < |recs|
    ensures Present(recs[..next + 1], minSeverity) ==
            Present(recs[..next], minSeverity) +
            if Relevant(recs[next], minSeverity) then {recs[next].id} else {}
  {
    assert recs[..next + 1][..next] == recs[..next];
  }

  /** The i-th finding is about the ID and at least as severe as the configured minimum. */
  predicate SevereEnough(recs: seq<Recommendation>, minSeverity: Severity, id: string, i: nat) {
    i < |recs| && recs[i].id == id && recs[i].severity.Rank() <= minSeverity.Rank()
  }

  /** With distinct IDs the findings by ID are those severe enough, the minimum included. */
  lemma {:induction false} FindingsAreThoseSevereEnough(recs: seq<Recommendation>, minSeverity: Severity, id: string)
    requires DistinctIds(recs)
    ensures id in Findings(recs, minSeverity) <==> exists i: nat :: SevereEnough(recs, minSeverity, id, i)
    ensures forall i: nat :: SevereEnough(recs, minSeverity, id, i) ==>
      id in Findings(recs, minSeverity) && Findings(recs, minSeverity)[id] == recs[i]
  {
    forall i: nat | SevereEnough(recs, minSeverity, id, i)
      ensures id in Findings(recs, minSeverity) && Findings(recs, minSeverity)[id] == recs[i]
    {
      FindingsAt(recs, minSeverity, i);
    }
    if id in Findings(recs, minSeverity) {
      var i := SomeFinding(recs, minSeverity, id);
      assert SevereEnough(recs, minSeverity, id, i);
    }
  }

  lemma {:induction false} SomeFinding(recs: seq<Recommendation>, minSeverity: Severity, id: string) returns (i: nat)
    requires id in Findings(recs, minSeverity)
    ensures SevereEnough(recs, minSeverity, id, i)
  {
    var n := |recs| - 1;
    if Relevant(recs[n], minSeverity) && recs[n].id == id {
      i := n;
    } else {
      i := SomeFinding(recs[..n], minSeverity, id);
    }
  }

  /** With distinct IDs each relevant finding is found under its own ID. */
  lemma {:induction false} FindingsAt(recs: seq<Recommendation>, minSeverity: Severity, i: nat)
    requires DistinctIds(recs) && i < |recs| && Relevant(recs[i], minSeverity)
    ensures recs[i].id in Findings(recs, minSeverity)
    ensures Findings(recs, minSeverity)[recs[i].id] == recs[i]
  {
    if i < |recs| - 1 {
      FindingsAt(recs[..|recs| - 1], minSeverity, i);
    }
  }

  lemma {:induction false} NotYetScanned(recs: seq<Recommendation>, minSeverity: Severity, next: nat, i: nat)
    requires DistinctIds(recs) && next <= i < |recs|
    ensures recs[i].id !in Present(recs[..next], minSeverity)
  {
    if next > 0 {
      NotYetScanned(recs, minSeverity, next - 1, i);
      FindingsNext(recs, minSeverity, next - 1);
    }
  }

  /** A step that deals with one ID alone leaves every other ID as it was. */
  lemma DealtWith(open: map<string, OpenAlert>, after: map<string, OpenAlert>,
                  findings: map<string, Recommendation>, call: Call, done: set<string>, id: string,
                  tried: set<string>, lost: set<string>)
    requires IdsInv(open, findings, call, done)
    requires tried <= {id} && lost <= {id}
    requires forall other: string :: other != id ==> SameAt(after, open, other)
    requires IdInv(after, findings, call.(tried := call.tried + tried, lost := call.lost + lost), done + {id}, id)
    ensures IdsInv(after, findings, call.(tried := call.tried + tried, lost := call.lost + lost), done + {id})
  {
    var c := call.(tried := call.tried + tried, lost := call.lost + lost);
    forall other: string
      ensures IdInv(after, findings, c, done + {id}, other)
    {
      assert IdInv(open, findings, call, done, other);
      if other != id {
        assert SameAt(after, open, other);
      }
    }
  }

  lemma SentOrLost(open: map<string, OpenAlert>, after: map<string, OpenAlert>,
                   findings: map<string, Recommendation>, call: Call, done: set<string>, id: string,
                   lost: set<string>)
    requires IdsInv(open, findings, call, done)
    requires id !in done && id in findings && findings[id].id == id && Outdated(open, findings[id])
    requires lost <= {id} && id !in call.lost
    requires after == if id in lost then open else open[id := NewOpenAlert(findings[id])]
    ensures IdsInv(after, findings, call.(tried := call.tried + {id}, lost := call.lost + lost), done + {id})
  {
    assert IdInv(open, findings, call, done, id);
    DealtWith(open, after, findings, call, done, id, {id}, lost);
  }

  lemma CountGrown(scanned: set<string>, tried: set<string>, id: string)
    requires id !in scanned && id !in tried
    ensures |(scanned + {id}) - (tried + {id})| == |scanned - tried|
    ensures |(scanned + {id}) - tried| == |scanned - tried| + 1
    ensures |tried + {id}| == |tried| + 1
  {
    assert (scanned + {id}) - (tried + {id}) == scanned - tried;
    assert (scanned + {id}) - tried == (scanned - tried) + {id};
  }

  /** The call record after attempting `id`. */
  function Attempted(s: Alerts, call: Call, id: string): Call {
    call.(tried := call.tried + {id}, lost := call.lost + if Queue.HasRoom(s.line) then {} else {id})
  }

  lemma AttemptCounts(s: Alerts, t: Alerts, call: Call, scanned: set<string>, id: string)
    requires CountInv(s, call, scanned) && id !in scanned && id !in call.tried
    requires t.line.offered == s.line.offered + 1
    requires t.line.dropped == s.line.dropped + if Queue.HasRoom(s.line) then 0 else 1
    requires t.suppressed == s.suppressed
    ensures CountInv(t, Attempted(s, call, id), scanned + {id})
  {
    CountGrown(scanned, call.tried, id);
    CountGrown({}, call.lost, id);
  }

  /** What attempting the finding under the cursor changes. */
  ghost predicate AttemptedStep(s: Alerts, t: Alerts, call: Call, next: nat, rec: Recommendation) {
    && t.minSeverity == s.minSeverity
    && t.pos == Scanning(Attempted(s, call, rec.id), next + 1)
    && t.open == (if Queue.HasRoom(s.line) then s.open[rec.id := NewOpenAlert(rec)] else s.open)
    && t.line.offered == s.line.offered + 1
    && t.line.dropped == s.line.dropped + (if Queue.HasRoom(s.line) then 0 else 1)
    && t.suppressed == s.suppressed
  }

  lemma AttemptKeepsIds(s: Alerts, t: Alerts, call: Call, next: nat, rec: Recommendation)
    requires next < |call.recs| && DistinctIds(call.recs) && rec == call.recs[next]
    requires IdsInv(s.open, Findings(call.recs, s.minSeverity), call, Present(call.recs[..next], s.minSeverity))
    requires Relevant(rec, s.minSeverity) && Outdated(s.open, rec)
    requires AttemptedStep(s, t, call, next, rec)
    requires call.lost <= call.tried
    ensures rec.id !in call.tried && rec.id !in Present(call.recs[..next], s.minSeverity)
    ensures IdsInv(t.open, Findings(call.recs, s.minSeverity), Attempted(s, call, rec.id),
                   Present(call.recs[..next], s.minSeverity) + {rec.id})
  {
    var findings := Findings(call.recs, s.minSeverity);
    var scanned := Present(call.recs[..next], s.minSeverity);
    FindingsAt(call.recs, s.minSeverity, next);
    NotYetScanned(call.recs, s.minSeverity, next, next);
    assert IdInv(s.open, findings, call, scanned, rec.id);
    SentOrLost(s.open, t.open, findings, call, scanned, rec.id,
               if Queue.HasRoom(s.line) then {} else {rec.id});
  }

  lemma AttemptKeepsCall(s: Alerts, call: Call, next: nat)
    requires s.pos == Scanning(call, next) && next < |call.recs| && DistinctIds(call.recs)
    requires ScanningInv(s, call, next)
    requires Relevant(call.recs[next], s.minSeverity) && Outdated(s.open, call.recs[next])
    ensures CallInv(ApplyScan(s))
  {
    var rec := call.recs[next];
    var t := ApplyScan(s);
    assert AttemptedStep(s, t, call, next, rec);
    AttemptKeepsIds(s, t, call, next, rec);
    AttemptCounts(s, t, call, Present(call.recs[..next], s.minSeverity), rec.id);
    FindingsNext(call.recs, s.minSeverity, next);
  }

  lemma SuppressKeepsIds(open: map<string, OpenAlert>, recs: seq<Recommendation>, minSeverity: Severity,
                         call: Call, next: nat)
    requires next < |recs| && DistinctIds(recs) && Relevant(recs[next], minSeverity) && !Outdated(open, recs[next])
    requires IdsInv(open, Findings(recs, minSeverity), call, Present(recs[..next], minSeverity))
    ensures recs[next].id !in call.tried && recs[next].id !in Present(recs[..next], minSeverity)
    ensures IdsInv(open, Findings(recs, minSeverity), call, Present(recs[..next], minSeverity) + {recs[next].id})
  {
    var id := recs[next].id;
    var findings, scanned := Findings(recs, minSeverity), Present(recs[..next], minSeverity);
    FindingsAt(recs, minSeverity, next);
    NotYetScanned(recs, minSeverity, next, next);
    assert IdInv(open, findings, call, scanned, id);
    assert call == call.(tried := call.tried + {}, lost := call.lost + {});
    DealtWith(open, open, findings, call, scanned, id, {}, {});
  }

  lemma SuppressKeepsCall(s: Alerts, call: Call, next: nat)
    requires s.pos == Scanning(call, next) && next < |call.recs| && DistinctIds(call.recs)
    requires ScanningInv(s, call, next)
    requires Relevant(call.recs[next], s.minSeverity) && !Outdated(s.open, call.recs[next])
    ensures CallInv(ApplyScan(s))
  {
    var t := s.(suppressed := s.suppressed + 1, seen := s.seen + 1, pos := Scanning(call, next + 1));
    var scanned := Present(call.recs[..next], s.minSeverity);
    assert ApplyScan(s) == t;
    SuppressKeepsIds(s.open, call.recs, s.minSeverity, call, next);
    SuppressCounts(s, t, call, scanned, call.recs[next].id);
    FindingsNext(call.recs, s.minSeverity, next);
    assert ScanningInv(t, call, next + 1);
  }

  lemma SuppressCounts(s: Alerts, t: Alerts, call: Call, scanned: set<string>, id: string)
    requires CountInv(s, call, scanned) && id !in scanned && id !in call.tried
    requires t.line == s.line && t.suppressed == s.suppressed + 1
    ensures CountInv(t, call, scanned + {id})
  {
    CountGrown(scanned, call.tried, id);
  }

  lemma ScanKeepsCall(s: Alerts)
    requires Enabled(s, Scan) && CallInv(s)
    ensures CallInv(Apply(s, Scan))
  {
    var call, next := s.pos.call, s.pos.next;
    if DistinctIds(call.recs) {
      if !Relevant(call.recs[next], s.minSeverity) {
        FindingsNext(call.recs, s.minSeverity, next);
        assert ApplyScan(s) == s.(pos := Scanning(call, next + 1));
      } else if Outdated(s.open, call.recs[next]) {
        AttemptKeepsCall(s, call, next);
      } else {
        SuppressKeepsCall(s, call, next);
      }
    }
  }

  lemma EndScanKeepsCall(s: Alerts)
    requires Enabled(s, EndScan) && CallInv(s)
    ensures CallInv(Apply(s, EndScan))
  {
    var call := s.pos.call;
    assert call.recs[..s.pos.next] == call.recs;
    if DistinctIds(call.recs) {
      var findings := Findings(call.recs, s.minSeverity);
      var todo := s.open.Keys - findings.Keys;
      forall id: string
        ensures id in todo <==> id in call.openBefore && id !in findings
        ensures IdInv(s.open, findings, call, findings.Keys + (call.openBefore.Keys - todo), id)
      {
        assert IdInv(s.open, findings, call, findings.Keys, id);
      }
    }
  }

  lemma ResolveKeepsIds(open: map<string, OpenAlert>, after: map<string, OpenAlert>,
                        findings: map<string, Recommendation>, call: Call, todo: set<string>, id: string,
                        lost: set<string>)
    requires id in todo && todo <= call.openBefore.Keys - findings.Keys && lost <= {id} && id !in call.lost
    requires IdsInv(open, findings, call, findings.Keys + (call.openBefore.Keys - todo))
    requires after == if id in lost then open else open - {id}
    ensures id !in call.tried
    ensures IdsInv(after, findings, call.(tried := call.tried + {id}, lost := call.lost + lost),
                   findings.Keys + (call.openBefore.Keys - (todo - {id})))
  {
    var done := findings.Keys + (call.openBefore.Keys - todo);
    assert IdInv(open, findings, call, done, id);
    assert findings.Keys + (call.openBefore.Keys - (todo - {id})) == done + {id};
    DealtWith(open, after, findings, call, done, id, {id}, lost);
  }

  /** An ID outside the findings does not change what was suppressed. */
  lemma ResolveCounts(s: Alerts, t: Alerts, call: Call, scanned: set<string>, id: string)
    requires CountInv(s, call, scanned) && id !in scanned && id !in call.tried
    requires t.line.offered == s.line.offered + 1
    requires t.line.dropped == s.line.dropped + if Queue.HasRoom(s.line) then 0 else 1
    requires t.suppressed == s.suppressed
    ensures CountInv(t, Attempted(s, call, id), scanned)
  {
    CountGrown({}, call.tried, id);
    CountGrown({}, call.lost, id);
    assert scanned - (call.tried + {id}) == scanned - call.tried;
  }

  lemma ResolveKeepsCall(s: Alerts, id: string)
    requires Enabled(s, Resolve(id)) && CallInv(s)
    ensures CallInv(Apply(s, Resolve(id)))
  {
    var call, todo := s.pos.call, s.pos.todo;
    if DistinctIds(call.recs) {
      var t := ApplyResolve(s, id);
      var findings := Findings(call.recs, s.minSeverity);
      assert IdInv(s.open, findings, call, findings.Keys + (call.openBefore.Keys - todo), id);
      ResolveKeepsIds(s.open, t.open, findings, call, todo, id, if Queue.HasRoom(s.line) then {} else {id});
      ResolveCounts(s, t, call, findings.Keys, id);
      assert t.pos == Resolving(Attempted(s, call, id), todo - {id});
    }
  }

  lemma BeginKeepsCall(s: Alerts, recs: seq<Recommendation>, now: int)
    requires Enabled(s, Begin(recs, now))
    ensures CallInv(Apply(s, Begin(recs, now)))
  {
  }

  lemma GoroutineKeepsCall(s: Alerts, b: Queue.Step<Payload>)
    requires Enabled(s, Goroutine(b)) && CallInv(s)
    ensures CallInv(Apply(s, Goroutine(b)))
  {
  }

  lemma StepKeepsCall(s: Alerts, a: Step)
    requires CallInv(s) && Enabled(s, a)
    ensures CallInv(Apply(s, a))
  {
    match a
    case Begin(recs, now) => BeginKeepsCall(s, recs, now);
    case Scan => ScanKeepsCall(s);
    case EndScan => EndScanKeepsCall(s);
    case Resolve(id) => ResolveKeepsCall(s, id);
    case Return =>
    case Goroutine(b) => GoroutineKeepsCall(s, b);
  }
}
