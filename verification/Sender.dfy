/**
  The Sender object of internal/alerting/sender.go. Its methods are the program; each
  is proved to perform a run of the protocol. The delivering goroutine is represented
  by GoroutineStep, called an arbitrary number of times wherever it could be scheduled.
  */
module AlertSender {
  import opened Telemetry
  import opened AlertPayloads
  import opened AlertProtocol
  import opened NotifyCalls
  import opened AlertRuns
  import Queue = DeliveryQueue

  class Sender {
    const minSeverity: Severity
    const cluster: string
    const queueSize: nat

    var open: map<string, OpenAlert>
    var suppressed: nat

    // Shared with the delivering goroutine.
    var queue: seq<Payload>
    var worker: Queue.Worker<Payload>
    var stopping: bool
    var sent: nat
    var failed: nat
    var dropped: nat

    // History.
    ghost var offered: nat
    ghost var accepted: seq<Payload>
    ghost var completed: seq<Queue.Delivery<Payload>>
    ghost var acceptedAtExit: nat
    ghost var seen: nat
    ghost var lostFindings: nat
    ghost var lostResolutions: nat
    ghost var pos: Position

    static predicate SameCall(a: Call, b: Call) {
      a.recs == b.recs && a.now == b.now && a.openBefore == b.openBefore &&
      a.offeredBefore == b.offeredBefore && a.droppedBefore == b.droppedBefore &&
      a.suppressedBefore == b.suppressedBefore
    }

    ghost function Line(): Queue.Line<Payload>
      reads this
    {
      Queue.Line(queueSize, DELIVERY_ATTEMPTS, queue, worker, stopping, sent, failed, dropped,
                 offered, accepted, completed, acceptedAtExit)
    }

    ghost function View(): Alerts
      reads this
    {
      Alerts(minSeverity, cluster, Line(), open, suppressed, seen, lostFindings, lostResolutions, pos)
    }

    constructor (queueSize: nat, minSeverity: Severity, cluster: string)
      ensures View() == Init(queueSize, minSeverity, cluster)
      ensures Inv(View()) && pos == Idle
    {
      this.queueSize, this.minSeverity, this.cluster := queueSize, minSeverity, cluster;
      open, suppressed := map[], 0;
      queue, worker, stopping := [], Queue.Waiting(false), false;
      sent, failed, dropped := 0, 0, 0;
      offered, accepted, completed, acceptedAtExit := 0, [], [], 0;
      seen, lostFindings, lostResolutions, pos := 0, 0, 0, Idle;
      new;
      InitInv(queueSize, minSeverity, cluster);
    }

    /** The non-blocking channel send. */
    method Enqueue(p: Payload) returns (ok: bool)
      modifies `queue, `dropped, `offered, `accepted
      ensures ok == (|old(queue)| < queueSize) == Queue.HasRoom(old(Line()))
      ensures Line() == Queue.Apply(old(Line()), Queue.Offer(p))
      ensures if ok then queue == old(queue) + [p] && dropped == old(dropped)
              else queue == old(queue) && dropped == old(dropped) + 1
    {
      offered := offered + 1;
      if |queue| < queueSize {
        queue, accepted := queue + [p], accepted + [p];
        return true;
      } else {
        dropped := dropped + 1;
        return false;
      }
    }

    /** One post of the payload in hand, answered in whatever way the endpoint chooses. */
    method PostOnce(outcome: Queue.Outcome)
      requires worker.Posting?
      modifies `worker, `sent, `failed, `completed
      ensures Line() == Queue.Apply(old(Line()), Queue.Post(outcome))
      ensures sent == old(sent) + if outcome == Queue.Delivered then 1 else 0
      ensures worker == old(worker).(outcomes := old(worker.outcomes) + [outcome]) <==>
        outcome == Queue.Retryable && old(worker.outcomes) == []
    {
      var outcomes := worker.outcomes + [outcome];
      assert outcomes[|outcomes| - 1] == outcome;
      if outcome == Queue.Delivered {
        sent := sent + 1;
      } else if outcome == Queue.Retryable && |outcomes| < DELIVERY_ATTEMPTS {
        worker := Queue.Posting(worker.payload, outcomes, worker.draining);
        return;
      } else {
        failed := failed + 1;
      }
      completed := completed + [Queue.Delivery(worker.payload, outcomes)];
      worker := Queue.Waiting(worker.draining);
    }

    /**
      One step of run: receive a payload, post it, notice `stop`, or return. When both
      channels of the select are ready, `preferStop` says which one it picks.
      */
    method GoroutineStep(outcome: Queue.Outcome, preferStop: bool)
      returns (ghost step: Queue.Step<Payload>, moved: bool)
      modifies `queue, `worker, `sent, `failed, `completed, `acceptedAtExit
      ensures moved ==> Queue.OfWorker(step) && Queue.Enabled(old(Line()), step)
      ensures moved ==> Line() == Queue.Apply(old(Line()), step)
      ensures !moved ==> Line() == old(Line())
      ensures !moved ==> forall a: Queue.Step<Payload> :: Queue.OfWorker(a) ==> !Queue.Enabled(Line(), a)
    {
      step, moved := Queue.Take, true;
      match worker
      case Posting(_, _, _) =>
        step := Queue.Post(outcome);
        PostOnce(outcome);
      case Waiting(draining) =>
        if !draining && stopping && (preferStop || queue == []) {
          step := Queue.BeginDrain;
          worker := Queue.Waiting(true);
        } else if queue != [] {
          worker, queue := Queue.Posting(queue[0], [], draining), queue[1..];
        } else if draining {
          step := Queue.Exit;
          worker := Queue.Exited;
          acceptedAtExit := |accepted|;
        } else {
          moved := false;
        }
      case Exited =>
        moved := false;
    }

    /** Lets the goroutine run for a while; Close may also close `stop` meanwhile. */
    method Interfere(ghost begun: Alerts, ghost before: seq<Step>) returns (ghost steps: seq<Step>)
      requires Inv(begun) && Exec(begun, before) == Reached(View())
      modifies `queue, `worker, `sent, `failed, `completed, `acceptedAtExit, `stopping
      ensures Exec(begun, steps) == Reached(View()) && before <= steps
    {
      steps := before;
      var turns: int := *;
      for i := 0 to if turns > 0 then turns else 0
        invariant Exec(begun, steps) == Reached(View()) && before <= steps
      {
        var outcome: Queue.Outcome := *;
        var preferStop, close: bool := *, *;
        ghost var was := View();
        if close {
          stopping := true;
          ExecAppend(begun, steps, Goroutine(Queue.Stop));
          steps := steps + [Goroutine(Queue.Stop)];
        } else {
          ghost var step; var moved;
          step, moved := GoroutineStep(outcome, preferStop);
          if moved {
            ExecAppend(begun, steps, Goroutine(step));
            steps := steps + [Goroutine(step)];
          }
        }
      }
    }

    /** The payload of the transition a finding that is not what is open calls for. */
    method TransitionFor(rec: Recommendation, now: int) returns (p: Payload)
      ensures p == Transition(View(), rec, now)
    {
      p := if rec.id !in open then FiringPayload(rec, Firing, Unknown(""), cluster, now)
           else FiringPayload(rec, Escalated, open[rec.id].severity, cluster, now);
    }

    /** Sends the transition of an outdated finding, and records it once that is queued. */
    method SendTransition(p: Payload, rec: Recommendation, ghost call: Call, ghost next: nat)
      requires pos == Scanning(call, next) && next < |call.recs| && rec == call.recs[next]
      requires Relevant(rec, minSeverity) && Outdated(open, rec) && p == Transition(View(), rec, call.now)
      modifies `open, `queue, `dropped, `offered, `accepted, `seen, `lostFindings, `pos
      ensures View() == ApplyScan(old(View()))
    {
      ghost var was := View();
      var ok := Enqueue(p);
      seen := seen + 1;
      if ok {
        open := open[rec.id := NewOpenAlert(rec)];
        pos := Scanning(call.(tried := call.tried + {rec.id}), next + 1);
        ScanSends(was, View(), rec);
      } else {
        lostFindings := lostFindings + 1;
        pos := Scanning(call.(tried := call.tried + {rec.id}, lost := call.lost + {rec.id}), next + 1);
        ScanDrops(was, View(), rec);
      }
    }

    /** Counts a finding that is open already, at this severity or a higher one. */
    method Suppress(rec: Recommendation, ghost call: Call, ghost next: nat)
      requires pos == Scanning(call, next) && next < |call.recs| && rec == call.recs[next]
      requires Relevant(rec, minSeverity) && !Outdated(open, rec)
      modifies `suppressed, `seen, `pos
      ensures View() == ApplyScan(old(View()))
    {
      suppressed := suppressed + 1;
      seen := seen + 1;
      pos := Scanning(call, next + 1);
    }

    /** The body of the loop over the findings, after any amount of delivering. */
    method ScanOne(rec: Recommendation, now: int, ghost begun: Alerts, ghost before: seq<Step>)
      returns (ghost trace: seq<Step>, relevant: bool)
      requires Inv(begun) && Exec(begun, before) == Reached(View())
      requires pos.Scanning? && pos.next < |pos.call.recs| && rec == pos.call.recs[pos.next] && now == pos.call.now
      modifies this
      ensures Exec(begun, trace) == Reached(View()) && before <= trace
      ensures pos.Scanning? && pos.next == old(pos.next) + 1 && SameCall(pos.call, old(pos.call))
      ensures relevant == Relevant(rec, minSeverity)
    {
      trace := Interfere(begun, before);
      ghost var was := View();
      ghost var call, next := pos.call, pos.next;
      relevant := rec.severity.Rank() <= minSeverity.Rank();
      if !relevant {
        pos := Scanning(call, next + 1);
      } else if rec.id !in open || rec.severity.Rank() < open[rec.id].severity.Rank() {
        var p := TransitionFor(rec, now);
        SendTransition(p, rec, call, next);
      } else {
        Suppress(rec, call, next);
      }
      ExecAppend(begun, trace, Scan);
      trace := trace + [Scan];
    }

    /** Sends the resolution of an open alert and forgets it once that is queued. */
    method ResolveOne(id: string, now: int, ghost call: Call, ghost todo: set<string>)
      requires pos == Resolving(call, todo) && id in todo && id in open && now == call.now
      modifies `open, `queue, `dropped, `offered, `accepted, `lostResolutions, `pos
      ensures View() == ApplyResolve(old(View()), id)
    {
      var ok := Enqueue(ResolvedPayload(open[id], cluster, now));
      if ok {
        open := open - {id};
        pos := Resolving(call.(tried := call.tried + {id}), todo - {id});
      } else {
        lostResolutions := lostResolutions + 1;
        pos := Resolving(call.(tried := call.tried + {id}, lost := call.lost + {id}), todo - {id});
      }
    }

    /** The body of the loop over the open alerts that are no longer present. */
    method ResolveNext(id: string, now: int, ghost begun: Alerts, ghost before: seq<Step>)
      returns (ghost trace: seq<Step>)
      requires Inv(begun) && Exec(begun, before) == Reached(View())
      requires pos.Resolving? && id in pos.todo && id in open && now == pos.call.now
      modifies this
      ensures Exec(begun, trace) == Reached(View()) && before <= trace
      ensures pos.Resolving? && pos.todo == old(pos.todo) - {id} && SameCall(pos.call, old(pos.call))
      ensures open.Keys >= old(open.Keys) - {id}
    {
      trace := Interfere(begun, before);
      ResolveOne(id, now, pos.call, pos.todo);
      ExecAppend(begun, trace, Resolve(id));
      trace := trace + [Resolve(id)];
    }

    /** The loop over the findings; `present` collects the relevant IDs. */
    method ScanAll(recs: seq<Recommendation>, now: int, ghost begun: Alerts, ghost before: seq<Step>)
      returns (ghost trace: seq<Step>, present: set<string>)
      requires Inv(begun) && Exec(begun, before) == Reached(View())
      requires pos.Scanning? && pos.next == 0 && pos.call.recs == recs && pos.call.now == now
      modifies this
      ensures Exec(begun, trace) == Reached(View()) && before <= trace
      ensures pos.Scanning? && pos.next == |recs| && SameCall(pos.call, old(pos.call))
      ensures present == Present(recs, minSeverity)
    {
      trace, present := before, {};
      for i := 0 to |recs|
        invariant Exec(begun, trace) == Reached(View()) && before <= trace
        invariant pos.Scanning? && pos.next == i && SameCall(pos.call, old(pos.call))
        invariant present == Present(recs[..i], minSeverity)
      {
        var relevant;
        trace, relevant := ScanOne(recs[i], now, begun, trace);
        FindingsNext(recs, minSeverity, i);
        present := if relevant then present + {recs[i].id} else present;
      }
      assert recs[..|recs|] == recs;
    }

    /** The loop over the open alerts that are no longer present. */
    method ResolveAll(ids: set<string>, now: int, ghost begun: Alerts, ghost before: seq<Step>)
      returns (ghost trace: seq<Step>)
      requires Inv(begun) && Exec(begun, before) == Reached(View())
      requires pos.Resolving? && pos.todo == ids <= open.Keys && now == pos.call.now
      modifies this
      ensures Exec(begun, trace) == Reached(View()) && before <= trace
      ensures pos.Resolving? && pos.todo == {} && SameCall(pos.call, old(pos.call))
    {
      trace := before;
      var todo := ids;
      while todo != {}
        invariant Exec(begun, trace) == Reached(View()) && before <= trace
        invariant pos.Resolving? && pos.todo == todo <= open.Keys && SameCall(pos.call, old(pos.call))
        decreases |todo|
      {
        var id :| id in todo;
        trace := ResolveNext(id, now, begun, trace);
        todo := todo - {id};
      }
    }

    /**
      Handed the complete findings of one evaluation, sends what changed. The trace is
      the run of the protocol it performs, up to the `report` it leaves on returning.
      */
    method Notify(recs: seq<Recommendation>, now: int) returns (ghost trace: seq<Step>, ghost report: Alerts)
      requires Inv(View()) && pos == Idle
      modifies this
      ensures Inv(View()) && pos == Idle
      ensures [Begin(recs, now)] <= trace && Exec(old(View()), trace) == Reached(report)
      ensures AboutToReturn(report) && Enabled(report, Return) && View() == Apply(report, Return)
      ensures report.pos.call.recs == recs && report.pos.call.now == now && report.pos.call.openBefore == old(open)
      ensures DistinctIds(recs) ==>
        var findings := Findings(recs, minSeverity);
        && report.pos.call.tried == Outstanding(old(open), findings)
        && report.pos.call.lost == Outstanding(open, findings)
        && UpToDate(old(open), open, report.pos.call.lost, recs, minSeverity)
        && dropped == old(dropped) + |report.pos.call.lost|
    {
      ghost var begun := View();
      ghost var call := Call(recs, now, open, offered, dropped, suppressed, {}, {});
      trace := [Begin(recs, now)];
      pos := Scanning(call, 0);
      BeginRuns(begun, recs, now);

      var present;
      trace, present := ScanAll(recs, now, begun, trace);
      ExecAppend(begun, trace, EndScan);
      trace := trace + [EndScan];
      pos := Resolving(pos.call, open.Keys - present);
      trace := ResolveAll(open.Keys - present, now, begun, trace);
      report := View();
      ReturnKeepsInv(begun, trace, report);
      if DistinctIds(recs) {
        NotifyAttemptsWhatIsOutstanding(report);
        CallBringsUpToDate(report);
      }
      pos := Idle;
    }

    /** One step of the goroutine while Close waits for it. */
    method DrainStep(ghost begun: Queue.Line<Payload>, ghost before: seq<Queue.Step<Payload>>)
      returns (ghost steps: seq<Queue.Step<Payload>>)
      requires Queue.Inv(Line()) && stopping && !worker.Exited?
      requires Queue.Exec(begun, before) == Queue.Reached(Line())
      modifies `queue, `worker, `sent, `failed, `completed, `acceptedAtExit
      ensures Queue.Exec(begun, steps) == Queue.Reached(Line()) && before <= steps
      ensures Queue.Inv(Line()) && Queue.Remaining(Line()) < Queue.Remaining(old(Line()))
      ensures worker.Exited? ==> queue == []
    {
      var outcome: Queue.Outcome := *;
      var preferStop: bool := *;
      ghost var was := Line();
      ghost var step; var moved;
      step, moved := GoroutineStep(outcome, preferStop);
      assert moved by {
        if !moved {
          Queue.WorkerCanMove(was);
        }
      }
      Queue.WorkerStepShrinks(was, step);
      Queue.ExecAppend(begun, before, step);
      steps := before + [step];
    }

    /**
      Closes `stop`, even in the middle of a Notify, and waits for the goroutine, which
      first drains the queue. While it waits, a Notify on another goroutine may go on
      offering payloads. What is still queued in the end was accepted after the goroutine
      returned.
      */
    method Close() returns (ghost trace: seq<Queue.Step<Payload>>)
      requires Inv(View())
      modifies `stopping, `queue, `worker, `sent, `failed, `dropped, `offered, `accepted, `completed, `acceptedAtExit
      ensures [Queue.Stop] <= trace && Queue.Exec(old(Line()), trace) == Queue.Reached(Line())
      ensures worker.Exited? && old(accepted) <= accepted && acceptedAtExit <= |accepted|
      ensures Queue.Payloads(completed) == accepted[..acceptedAtExit] && queue == accepted[acceptedAtExit..]
      ensures old(worker.Exited?) || queue == []
    {
      ghost var begun := Line();
      stopping := true;
      trace := [Queue.Stop];
      assert Queue.Exec(begun, trace) == Queue.Reached(Line());
      var offers: nat := *;
      while !worker.Exited?
        invariant Queue.Inv(Line()) && stopping && old(accepted) <= accepted
        invariant Queue.Exec(begun, trace) == Queue.Reached(Line()) && [Queue.Stop] <= trace
        invariant worker.Exited? ==> old(worker.Exited?) || queue == []
        decreases offers, Queue.Remaining(Line())
      {
        var offer: bool := *;
        if offer && offers > 0 {
          trace := OfferMeanwhile(begun, trace);
          offers := offers - 1;
        } else {
          trace := DrainStep(begun, trace);
        }
      }
      Queue.OnlyLateArrivalsAreStranded(Line());
    }

    /** Another goroutine offers some payload while Close waits. */
    method OfferMeanwhile(ghost begun: Queue.Line<Payload>, ghost before: seq<Queue.Step<Payload>>)
      returns (ghost steps: seq<Queue.Step<Payload>>)
      requires Queue.Inv(Line()) && Queue.Exec(begun, before) == Queue.Reached(Line())
      modifies `queue, `dropped, `offered, `accepted
      ensures Queue.Exec(begun, steps) == Queue.Reached(Line()) && before <= steps
      ensures Queue.Inv(Line()) && old(accepted) <= accepted
    {
      ghost var was := Line();
      var p: Payload := *;
      var ok := Enqueue(p);
      Queue.OfferKeepsInv(was, p);
      Queue.ExecAppend(begun, before, Queue.Offer(p));
      steps := before + [Queue.Offer(p)];
    }
  }
}
