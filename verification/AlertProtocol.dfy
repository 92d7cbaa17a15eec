/**
  The alert sender of internal/alerting/sender.go as a transition system.

  Notify holds the mutex from its first to its last step, but the channel is not
  guarded by it: a step of the delivering goroutine may fall between any two steps
  of Notify. A sequence of step names is one such interleaving.
  */
module AlertProtocol {
  import opened Telemetry
  import opened AlertPayloads
  import opened AlertWords
  import opened Seqs
  import Queue = DeliveryQueue

  /** Two tries per alert: one immediate, one after a backoff. */
  const DELIVERY_ATTEMPTS := 2

  /** One call of Notify: its argument, and where the counters stood when it began. */
  datatype Call = Call(
    recs: seq<Recommendation>,
    now: int,
    openBefore: map<string, OpenAlert>,
    offeredBefore: nat,
    droppedBefore: nat,
    suppressedBefore: nat,
    tried: set<string>,
    lost: set<string>)

  /** Where Notify stands: outside, at finding `next`, or walking the open alerts `todo`. */
  datatype Position =
    | Idle
    | Scanning(call: Call, next: nat)
    | Resolving(call: Call, todo: set<string>)

  datatype Alerts = Alerts(
    minSeverity: Severity,
    cluster: string,
    line: Queue.Line<Payload>,
    open: map<string, OpenAlert>,
    suppressed: nat,
    seen: nat,
    lostFindings: nat,
    lostResolutions: nat,
    pos: Position)

  datatype Step =
    | Begin(recs: seq<Recommendation>, now: int)
    | Scan
    | EndScan
    | Resolve(id: string)
    | Return
    | Goroutine(step: Queue.Step<Payload>)

  function Init(capacity: nat, minSeverity: Severity, cluster: string): Alerts {
    Alerts(minSeverity, cluster, Queue.Init(capacity, DELIVERY_ATTEMPTS), map[], 0, 0, 0, 0, Idle)
  }

  // ---------------------------------------------------------------------------
  // Decisions
  // ---------------------------------------------------------------------------

  /** Severe enough to be sent and tracked at all. */
  predicate Relevant(rec: Recommendation, minSeverity: Severity) {
    rec.severity.Rank() <= minSeverity.Rank()
  }

  /** The finding is new, or more severe than what was last sent for it. */
  predicate Outdated(open: map<string, OpenAlert>, rec: Recommendation) {
    rec.id !in open || rec.severity.Rank() < open[rec.id].severity.Rank()
  }

  /** The relevant findings by ID. */
  function Findings(recs: seq<Recommendation>, minSeverity: Severity): map<string, Recommendation> {
    if recs == [] then map[]
    else
      var last := recs[|recs| - 1];
      var earlier := Findings(recs[..|recs| - 1], minSeverity);
      if Relevant(last, minSeverity) then earlier[last.id := last] else earlier
  }

  function Present(recs: seq<Recommendation>, minSeverity: Severity): set<string> {
    Findings(recs, minSeverity).Keys
  }

  /** Whether the open alerts fail to say of one ID what the findings say. */
  predicate IsOutstanding(open: map<string, OpenAlert>, findings: map<string, Recommendation>, id: string) {
    if id in findings then Outdated(open, findings[id]) else id in open
  }

  function Outstanding(open: map<string, OpenAlert>, findings: map<string, Recommendation>): set<string> {
    set id | id in findings.Keys + open.Keys && IsOutstanding(open, findings, id)
  }

  predicate DistinctIds(recs: seq<Recommendation>) {
    forall i, j :: 0 <= i < j < |recs| ==> recs[i].id != recs[j].id
  }

  function Transition(s: Alerts, rec: Recommendation, now: int): Payload {
    if rec.id !in s.open then FiringPayload(rec, Firing, Unknown(""), s.cluster, now)
    else FiringPayload(rec, Escalated, s.open[rec.id].severity, s.cluster, now)
  }

  // ---------------------------------------------------------------------------
  // Steps
  // ---------------------------------------------------------------------------

  predicate Enabled(s: Alerts, a: Step) {
    match a
    case Begin(_, _) => s.pos.Idle?
    case Scan => s.pos.Scanning? && s.pos.next < |s.pos.call.recs|
    case EndScan => s.pos.Scanning? && s.pos.next == |s.pos.call.recs|
    case Resolve(id) => s.pos.Resolving? && id in s.pos.todo && id in s.open
    case Return => s.pos.Resolving? && s.pos.todo == {}
    case Goroutine(b) => !b.Offer? && Queue.Enabled(s.line, b)
  }

  function Offered(s: Alerts, p: Payload): Queue.Line<Payload> {
    Queue.Apply(s.line, Queue.Offer(p))
  }

  function Apply(s: Alerts, a: Step): Alerts
    requires Enabled(s, a)
  {
    match a
    case Begin(recs, now) =>
      s.(pos := Scanning(Call(recs, now, s.open, s.line.offered, s.line.dropped, s.suppressed, {}, {}), 0))
    case Scan => ApplyScan(s)
    case EndScan =>
      s.(pos := Resolving(s.pos.call, s.open.Keys - Present(s.pos.call.recs, s.minSeverity)))
    case Resolve(id) => ApplyResolve(s, id)
    case Return => s.(pos := Idle)
    case Goroutine(b) => s.(line := Queue.Apply(s.line, b))
  }

  function ApplyScan(s: Alerts): Alerts
    requires Enabled(s, Scan)
  {
    var call := s.pos.call;
    var rec := call.recs[s.pos.next];
    if !Relevant(rec, s.minSeverity) then
      s.(pos := Scanning(call, s.pos.next + 1))
    else if Outdated(s.open, rec) then
      var accepted := Queue.HasRoom(s.line);
      s.(line := Offered(s, Transition(s, rec, call.now)),
         open := if accepted then s.open[rec.id := NewOpenAlert(rec)] else s.open,
         seen := s.seen + 1,
         lostFindings := if accepted then s.lostFindings else s.lostFindings + 1,
         pos := Scanning(call.(tried := call.tried + {rec.id},
                               lost := if accepted then call.lost else call.lost + {rec.id}),
                         s.pos.next + 1))
    else
      s.(suppressed := s.suppressed + 1, seen := s.seen + 1, pos := Scanning(call, s.pos.next + 1))
  }

  /** What a scan step that finds room in the queue makes of the state. */
  lemma ScanSends(s: Alerts, t: Alerts, rec: Recommendation)
    requires Enabled(s, Scan) && rec == s.pos.call.recs[s.pos.next]
    requires Relevant(rec, s.minSeverity) && Outdated(s.open, rec) && Queue.HasRoom(s.line)
    requires t == s.(line := Offered(s, Transition(s, rec, s.pos.call.now)),
                     open := s.open[rec.id := NewOpenAlert(rec)],
                     seen := s.seen + 1,
                     pos := Scanning(s.pos.call.(tried := s.pos.call.tried + {rec.id}), s.pos.next + 1))
    ensures t == ApplyScan(s)
  {
  }

  /** And one that does not. */
  lemma ScanDrops(s: Alerts, t: Alerts, rec: Recommendation)
    requires Enabled(s, Scan) && rec == s.pos.call.recs[s.pos.next]
    requires Relevant(rec, s.minSeverity) && Outdated(s.open, rec) && !Queue.HasRoom(s.line)
    requires t == s.(line := Offered(s, Transition(s, rec, s.pos.call.now)),
                     seen := s.seen + 1,
                     lostFindings := s.lostFindings + 1,
                     pos := Scanning(s.pos.call.(tried := s.pos.call.tried + {rec.id},
                                                 lost := s.pos.call.lost + {rec.id}), s.pos.next + 1))
    ensures t == ApplyScan(s)
  {
  }

  function ApplyResolve(s: Alerts, id: string): Alerts
    requires Enabled(s, Resolve(id))
  {
    var call := s.pos.call;
    var accepted := Queue.HasRoom(s.line);
    s.(line := Offered(s, ResolvedPayload(s.open[id], s.cluster, call.now)),
       open := if accepted then s.open - {id} else s.open,
       lostResolutions := if accepted then s.lostResolutions else s.lostResolutions + 1,
       pos := Resolving(call.(tried := call.tried + {id},
                              lost := if accepted then call.lost else call.lost + {id}),
                        s.pos.todo - {id}))
  }

  datatype Result = Reached(alerts: Alerts) | Stuck

  function Exec(s: Alerts, steps: seq<Step>): Result
    decreases |steps|
  {
    if steps == [] then Reached(s)
    else if Enabled(s, steps[0]) then Exec(Apply(s, steps[0]), steps[1..])
    else Stuck
  }

  lemma {:induction false} ExecAppend(s: Alerts, steps: seq<Step>, a: Step)
    requires Exec(s, steps).Reached? && Enabled(Exec(s, steps).alerts, a)
    ensures Exec(s, steps + [a]) == Reached(Apply(Exec(s, steps).alerts, a))
    decreases |steps|
  {
    if steps == [] {
      assert ([a])[1..] == [];
    } else {
      assert (steps + [a])[1..] == steps[1..] + [a];
      ExecAppend(Apply(s, steps[0]), steps[1..], a);
    }
  }

  lemma BeginRuns(s: Alerts, recs: seq<Recommendation>, now: int)
    requires s.pos.Idle?
    ensures Exec(s, [Begin(recs, now)]) == Reached(Apply(s, Begin(recs, now)))
  {
  }

  // ---------------------------------------------------------------------------
  // The invariant: open alerts and the accepted words agree
  // ---------------------------------------------------------------------------

  function CountFindings(ps: seq<Payload>): nat {
    if ps == [] then 0
    else CountFindings(ps[..|ps| - 1]) + if ps[|ps| - 1].event == Resolved then 0 else 1
  }

  /** The open map says of one ID what the word accepted for it says. */
  predicate Agrees(open: map<string, OpenAlert>, accepted: seq<Payload>, id: string) {
    var w := Word(accepted, id);
    && WordOk(w)
    && (id in open <==> MidEpisode(w))
    && (id in open ==> open[id] == IdentityOf(w[|w| - 1]) && open[id].id == id)
  }

  ghost predicate WordsInv(s: Alerts) {
    forall id: string :: Agrees(s.open, s.line.accepted, id)
  }

  /** Nothing below the configured severity is ever sent as a finding. */
  predicate SeverityInv(s: Alerts) {
    forall i :: 0 <= i < |s.line.accepted| && s.line.accepted[i].event != Resolved ==>
      s.line.accepted[i].severity.Rank() <= s.minSeverity.Rank()
  }

  /** Every relevant finding was accepted, dropped or suppressed, and nothing else was dropped. */
  predicate CountsInv(s: Alerts) {
    && s.seen == CountFindings(s.line.accepted) + s.lostFindings + s.suppressed
    && s.line.dropped == s.lostFindings + s.lostResolutions
  }

  ghost predicate CoreInv(s: Alerts) {
    && Queue.Inv(s.line)
    && s.line.maxAttempts == DELIVERY_ATTEMPTS
    && WordsInv(s)
    && SeverityInv(s)
    && CountsInv(s)
    && (s.pos.Resolving? ==> s.pos.todo <= s.open.Keys)
  }

  /** Accepting one payload extends one word and moves one entry of the open map. */
  lemma AcceptKeepsWords(s: Alerts, p: Payload, open: map<string, OpenAlert>)
    requires WordsInv(s)
    requires open.Keys - {p.id} == s.open.Keys - {p.id}
    requires forall id :: id in open && id in s.open && id != p.id ==> open[id] == s.open[id]
    requires var w := Word(s.line.accepted, p.id); LinkOk(w + [p], |w|)
    requires p.id in open <==> p.event != Resolved
    requires p.id in open ==> open[p.id] == IdentityOf(p)
    ensures forall id: string :: Agrees(open, s.line.accepted + [p], id)
  {
    forall id: string
      ensures Agrees(open, s.line.accepted + [p], id)
    {
      assert Agrees(s.open, s.line.accepted, id);
      FilterAppend(s.line.accepted, p, Concerns(id));
      if id == p.id {
        ExtendWord(Word(s.line.accepted, id), p);
      } else {
        assert id in open <==> id in open.Keys - {p.id};
        assert id in s.open <==> id in s.open.Keys - {p.id};
      }
    }
  }

  lemma CountAppend(ps: seq<Payload>, p: Payload)
    ensures CountFindings(ps + [p]) == CountFindings(ps) + if p.event == Resolved then 0 else 1
  {
  }

  lemma TransitionLinks(s: Alerts, rec: Recommendation, now: int)
    requires Agrees(s.open, s.line.accepted, rec.id) && Outdated(s.open, rec)
    ensures
      var w := Word(s.line.accepted, rec.id);
      LinkOk(w + [Transition(s, rec, now)], |w|)
  {
  }

  lemma SendKeepsCore(s: Alerts, rec: Recommendation)
    requires CoreInv(s) && Enabled(s, Scan) && rec == s.pos.call.recs[s.pos.next]
    requires Relevant(rec, s.minSeverity) && Outdated(s.open, rec)
    requires Queue.HasRoom(s.line)
    ensures WordsInv(ApplyScan(s)) && CountsInv(ApplyScan(s)) && SeverityInv(ApplyScan(s))
  {
    var t := ApplyScan(s);
    var p := Transition(s, rec, s.pos.call.now);
    assert Agrees(s.open, s.line.accepted, rec.id);
    TransitionLinks(s, rec, s.pos.call.now);
    CountAppend(s.line.accepted, p);
    AcceptKeepsWords(s, p, t.open);
    assert t.line.accepted == s.line.accepted + [p];
  }

  lemma ScanKeepsCore(s: Alerts)
    requires CoreInv(s) && Enabled(s, Scan)
    ensures CoreInv(Apply(s, Scan))
  {
    var rec := s.pos.call.recs[s.pos.next];
    if Relevant(rec, s.minSeverity) && Outdated(s.open, rec) {
      Queue.StepKeepsInv(s.line, Queue.Offer(Transition(s, rec, s.pos.call.now)));
      if Queue.HasRoom(s.line) {
        SendKeepsCore(s, rec);
      } else {
        assert ApplyScan(s).line.accepted == s.line.accepted;
      }
    }
  }

  lemma ResolveLinks(s: Alerts, id: string, now: int)
    requires Agrees(s.open, s.line.accepted, id) && id in s.open
    ensures
      var w := Word(s.line.accepted, id);
      LinkOk(w + [ResolvedPayload(s.open[id], s.cluster, now)], |w|)
  {
  }

  lemma ResolveKeepsCore(s: Alerts, id: string)
    requires CoreInv(s) && Enabled(s, Resolve(id))
    ensures CoreInv(Apply(s, Resolve(id)))
  {
    var p := ResolvedPayload(s.open[id], s.cluster, s.pos.call.now);
    var t := ApplyResolve(s, id);
    Queue.StepKeepsInv(s.line, Queue.Offer(p));
    assert Agrees(s.open, s.line.accepted, id);
    if Queue.HasRoom(s.line) {
      ResolveLinks(s, id, s.pos.call.now);
      AcceptKeepsWords(s, p, t.open);
      CountAppend(s.line.accepted, p);
    }
  }

  lemma StepKeepsCore(s: Alerts, a: Step)
    requires CoreInv(s) && Enabled(s, a)
    ensures CoreInv(Apply(s, a))
  {
    match a
    case Scan => ScanKeepsCore(s);
    case Resolve(id) => ResolveKeepsCore(s, id);
    case Goroutine(b) => Queue.StepKeepsInv(s.line, b);
    case Begin(_, _) =>
    case EndScan =>
    case Return =>
  }
}
