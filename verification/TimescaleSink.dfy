/** The database sink of internal/storage/timescale/sink.go: the same queue, one attempt per row. */
module TimescaleSink {
  import opened Telemetry
  import Queue = DeliveryQueue

  const INSERT_ATTEMPTS := 1

  class Sink {
    const queueSize: nat
    var queue: seq<Snapshot>
    var worker: Queue.Worker<Snapshot>
    var stopping: bool
    var written: nat
    var failed: nat
    var dropped: nat

    ghost var offered: nat
    ghost var accepted: seq<Snapshot>
    ghost var completed: seq<Queue.Delivery<Snapshot>>
    ghost var acceptedAtExit: nat

    ghost function View(): Queue.Line<Snapshot>
      reads this
    {
      Queue.Line(queueSize, INSERT_ATTEMPTS, queue, worker, stopping, written, failed, dropped,
                 offered, accepted, completed, acceptedAtExit)
    }

    constructor (queueSize: nat)
      ensures View() == Queue.Init(queueSize, INSERT_ATTEMPTS)
    {
      this.queueSize := queueSize;
      queue, worker, stopping := [], Queue.Waiting(false), false;
      written, failed, dropped := 0, 0, 0;
      offered, accepted, completed, acceptedAtExit := 0, [], [], 0;
    }

    /** Enqueues a snapshot without blocking, or counts it as dropped. */
    method Write(snap: Snapshot)
      modifies `queue, `dropped, `offered, `accepted
      ensures View() == Queue.Apply(old(View()), Queue.Offer(snap))
      ensures if |old(queue)| < queueSize then queue == old(queue) + [snap] && dropped == old(dropped)
              else queue == old(queue) && dropped == old(dropped) + 1
    {
      offered := offered + 1;
      if |queue| < queueSize {
        queue, accepted := queue + [snap], accepted + [snap];
      } else {
        dropped := dropped + 1;
      }
    }

    /** Inserts the row in hand: no retry, whatever the error. */
    method Insert(ok: bool)
      requires worker.Posting? && worker.outcomes == []
      modifies `worker, `written, `failed, `completed
      ensures View() == Queue.Apply(old(View()), Queue.Post(if ok then Queue.Delivered else Queue.Permanent))
      ensures if ok then written == old(written) + 1 && failed == old(failed)
              else written == old(written) && failed == old(failed) + 1
    {
      var outcome := if ok then Queue.Delivered else Queue.Permanent;
      ghost var outcomes := worker.outcomes + [outcome];
      assert outcomes[|outcomes| - 1] == outcome;
      completed := completed + [Queue.Delivery(worker.payload, outcomes)];
      worker := Queue.Waiting(worker.draining);
      if ok {
        written := written + 1;
      } else {
        failed := failed + 1;
      }
    }
  }

  /**
    In every run of producers, writer and Close, each snapshot offered is dropped, queued,
    being inserted, or was inserted exactly once, in the order it was accepted.
    */
  lemma EachRowIsInsertedOnce(queueSize: nat, steps: seq<Queue.Step<Snapshot>>)
    requires Queue.Exec(Queue.Init<Snapshot>(queueSize, INSERT_ATTEMPTS), steps).Reached?
    ensures
      var s := Queue.Exec(Queue.Init<Snapshot>(queueSize, INSERT_ATTEMPTS), steps).line;
      && s.accepted == Queue.Payloads(s.completed) + Queue.InFlight(s) + s.queue
      && s.offered == s.sent + s.failed + |Queue.InFlight(s)| + |s.queue| + s.dropped
      && |s.queue| <= queueSize
      && (forall i :: 0 <= i < |s.completed| ==> |s.completed[i].outcomes| == 1)
      && (s.worker.Exited? ==> s.acceptedAtExit <= |s.accepted| && s.queue == s.accepted[s.acceptedAtExit..])
  {
    var init := Queue.Init<Snapshot>(queueSize, INSERT_ATTEMPTS);
    assert Queue.Payloads<Snapshot>([]) == [];
    Queue.RunKeepsInv(init, steps);
    var s := Queue.Exec(init, steps).line;
    forall i | 0 <= i < |s.completed|
      ensures |s.completed[i].outcomes| == 1
    {
      assert Queue.DeliveryOk(s.completed[i], INSERT_ATTEMPTS);
    }
    if s.worker.Exited? {
      Queue.OnlyLateArrivalsAreStranded(s);
    }
  }
}
