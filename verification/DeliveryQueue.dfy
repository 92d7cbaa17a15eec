/**
  The bounded queue with a single writer goroutine that internal/alerting/sender.go
  and internal/storage/timescale/sink.go both use.

  Producers offer payloads without blocking; a full channel drops the payload. One
  worker receives, delivers with a bounded number of attempts, and once `stop` is
  closed drains the channel until it finds it empty and returns.

  The state carries logs that the programs do not keep (`offered`, `accepted`,
  `completed`, `acceptedAtExit`); the steps are deterministic once the
  step name is chosen, so a sequence of step names is one interleaving.
  */
module DeliveryQueue {
  import opened Seqs

  /** What one call of `post` (or `exec`) reports. */
  datatype Outcome = Delivered | Retryable | Permanent

  /** One payload the worker is finished with, and every attempt made on it. */
  datatype Delivery<T> = Delivery(payload: T, outcomes: seq<Outcome>)

  datatype Worker<T> =
    | Waiting(draining: bool)
    | Posting(payload: T, outcomes: seq<Outcome>, draining: bool)
    | Exited

  datatype Line<T> = Line(
    capacity: nat,
    maxAttempts: nat,
    queue: seq<T>,
    worker: Worker<T>,
    stopping: bool,
    sent: nat,
    failed: nat,
    dropped: nat,
    offered: nat,
    accepted: seq<T>,
    completed: seq<Delivery<T>>,
    acceptedAtExit: nat)

  datatype Step<T> =
    | Offer(payload: T)
    | Stop
    | Take
    | BeginDrain
    | Post(outcome: Outcome)
    | Exit

  function Init<T>(capacity: nat, maxAttempts: nat): Line<T> {
    Line(capacity, maxAttempts, [], Waiting(false), false, 0, 0, 0, 0, [], [], 0)
  }

  predicate Enabled<T>(s: Line<T>, a: Step<T>) {
    match a
    case Offer(_) => true
    case Stop => true
    case Take => s.worker.Waiting? && s.queue != []
    case BeginDrain => s.worker.Waiting? && !s.worker.draining && s.stopping
    case Post(_) => s.worker.Posting?
    case Exit => s.worker.Waiting? && s.worker.draining && s.queue == []
  }

  /** The non-blocking send succeeds exactly when the channel has room. */
  predicate HasRoom<T>(s: Line<T>) {
    |s.queue| < s.capacity
  }

  function Apply<T>(s: Line<T>, a: Step<T>): Line<T>
    requires Enabled(s, a)
  {
    match a
    case Offer(p) =>
      if HasRoom(s) then
        s.(queue := s.queue + [p], accepted := s.accepted + [p], offered := s.offered + 1)
      else
        s.(dropped := s.dropped + 1, offered := s.offered + 1)
    case Stop => s.(stopping := true)
    case Take => s.(queue := s.queue[1..], worker := Posting(s.queue[0], [], s.worker.draining))
    case BeginDrain => s.(worker := Waiting(true))
    case Post(o) => AfterPost(s, s.worker.outcomes + [o])
    case Exit => s.(worker := Exited, acceptedAtExit := |s.accepted|)
  }

  /** A retryable error is tried again while attempts remain; anything else ends the delivery. */
  function AfterPost<T>(s: Line<T>, outcomes: seq<Outcome>): Line<T>
    requires s.worker.Posting? && outcomes != []
  {
    var last := outcomes[|outcomes| - 1];
    if last == Retryable && |outcomes| < s.maxAttempts then
      s.(worker := s.worker.(outcomes := outcomes))
    else
      s.(worker := Waiting(s.worker.draining),
         completed := s.completed + [Delivery(s.worker.payload, outcomes)],
         sent := if last == Delivered then s.sent + 1 else s.sent,
         failed := if last == Delivered then s.failed else s.failed + 1)
  }

  /** Runs the steps in order; None when one of them is not possible where it stands. */
  function Exec<T>(s: Line<T>, steps: seq<Step<T>>): Result<T>
    decreases |steps|
  {
    if steps == [] then Reached(s)
    else if Enabled(s, steps[0]) then Exec(Apply(s, steps[0]), steps[1..])
    else Stuck
  }

  lemma {:induction false} ExecAppend<T>(s: Line<T>, steps: seq<Step<T>>, a: Step<T>)
    requires Exec(s, steps).Reached? && Enabled(Exec(s, steps).line, a)
    ensures Exec(s, steps + [a]) == Reached(Apply(Exec(s, steps).line, a))
    decreases |steps|
  {
    if steps == [] {
      assert [a][1..] == [];
    } else {
      assert (steps + [a])[1..] == steps[1..] + [a];
      ExecAppend(Apply(s, steps[0]), steps[1..], a);
    }
  }

  datatype Result<T> = Reached(line: Line<T>) | Stuck

  // ---------------------------------------------------------------------------
  // What every reachable state satisfies
  // ---------------------------------------------------------------------------

  function Payloads<T>(ds: seq<Delivery<T>>): (r: seq<T>)
    ensures |r| == |ds|
    ensures forall i :: 0 <= i < |ds| ==> r[i] == ds[i].payload
  {
    seq(|ds|, i requires 0 <= i < |ds| => ds[i].payload)
  }

  function InFlight<T>(s: Line<T>): seq<T> {
    if s.worker.Posting? then [s.worker.payload] else []
  }

  /** Every attempt but the last was answered with a retryable error. */
  predicate OnlyRetriedWhenRetryable(outcomes: seq<Outcome>) {
    forall i :: 0 <= i < |outcomes| - 1 ==> outcomes[i] == Retryable
  }

  predicate DeliveryOk<T>(d: Delivery<T>, maxAttempts: nat) {
    && 1 <= |d.outcomes| <= maxAttempts
    && OnlyRetriedWhenRetryable(d.outcomes)
    && (d.outcomes[|d.outcomes| - 1] == Retryable ==> |d.outcomes| == maxAttempts)
  }

  /** The last attempt got through, whatever became of those before it. */
  predicate Succeeded<T>(d: Delivery<T>) {
    d.outcomes != [] && d.outcomes[|d.outcomes| - 1] == Delivered
  }

  function Successes<T>(ds: seq<Delivery<T>>): seq<Delivery<T>> {
    Filter(ds, (d: Delivery<T>) => Succeeded(d))
  }

  predicate WorkerOk<T>(s: Line<T>) {
    match s.worker
    case Waiting(draining) => draining ==> s.stopping
    case Posting(_, outcomes, draining) =>
      && |outcomes| < s.maxAttempts
      && (forall i :: 0 <= i < |outcomes| ==> outcomes[i] == Retryable)
      && (draining ==> s.stopping)
    case Exited => s.stopping && s.acceptedAtExit == |s.completed|
  }

  /** FIFO and conservation: nothing accepted is lost, duplicated or reordered. */
  ghost predicate Inv<T>(s: Line<T>) {
    && |s.queue| <= s.capacity
    && 1 <= s.maxAttempts
    && s.accepted == Payloads(s.completed) + InFlight(s) + s.queue
    && (forall i :: 0 <= i < |s.completed| ==> DeliveryOk(s.completed[i], s.maxAttempts))
    && s.sent == |Successes(s.completed)|
    && s.sent + s.failed == |s.completed|
    && s.offered == |s.accepted| + s.dropped
    && WorkerOk(s)
  }

  /** A payload is accepted exactly when fewer than the capacity are queued, and dropped otherwise. */
  lemma AcceptedExactlyWhen<T>(s: Line<T>, p: T)
    ensures
      var t := Apply(s, Offer(p));
      if |s.queue| < s.capacity then
        t.accepted == s.accepted + [p] && t.queue == s.queue + [p] && t.dropped == s.dropped
      else
        t.accepted == s.accepted && t.queue == s.queue && t.dropped == s.dropped + 1
  {
  }

  lemma OfferKeepsInv<T>(s: Line<T>, p: T)
    requires Inv(s)
    ensures Inv(Apply(s, Offer(p)))
  {
  }

  lemma TakeKeepsInv<T>(s: Line<T>)
    requires Inv(s) && Enabled(s, Take)
    ensures Inv(Apply(s, Take))
  {
  }

  lemma FinishKeepsInv<T>(s: Line<T>, outcomes: seq<Outcome>)
    requires Inv(s) && s.worker.Posting? && outcomes != []
    requires DeliveryOk(Delivery(s.worker.payload, outcomes), s.maxAttempts)
    ensures
      var last := outcomes[|outcomes| - 1];
      Inv(s.(worker := Waiting(s.worker.draining),
             completed := s.completed + [Delivery(s.worker.payload, outcomes)],
             sent := if last == Delivered then s.sent + 1 else s.sent,
             failed := if last == Delivered then s.failed else s.failed + 1))
  {
  }

  lemma PostKeepsInv<T>(s: Line<T>, o: Outcome)
    requires Inv(s) && Enabled(s, Post(o))
    ensures Inv(Apply(s, Post(o)))
  {
    var outcomes := s.worker.outcomes + [o];
    assert outcomes[|outcomes| - 1] == o;
    if o == Retryable && |outcomes| < s.maxAttempts {
      assert Apply(s, Post(o)) == s.(worker := s.worker.(outcomes := outcomes));
    } else {
      FinishKeepsInv(s, outcomes);
    }
  }

  lemma StepKeepsInv<T>(s: Line<T>, a: Step<T>)
    requires Inv(s) && Enabled(s, a)
    ensures Inv(Apply(s, a))
  {
    match a
    case Offer(p) => OfferKeepsInv(s, p);
    case Take => TakeKeepsInv(s);
    case Post(o) => PostKeepsInv(s, o);
    case Stop =>
    case BeginDrain =>
    case Exit =>
  }

  /** Every run from any good state, in any interleaving, stays good. */
  lemma {:induction false} RunKeepsInv<T>(s: Line<T>, steps: seq<Step<T>>)
    requires Inv(s) && Exec(s, steps).Reached?
    ensures Inv(Exec(s, steps).line)
    ensures Exec(s, steps).line.maxAttempts == s.maxAttempts
    ensures Exec(s, steps).line.capacity == s.capacity
    decreases |steps|
  {
    if steps != [] {
      StepKeepsInv(s, steps[0]);
      RunKeepsInv(Apply(s, steps[0]), steps[1..]);
    }
  }

  // ---------------------------------------------------------------------------
  // Shutdown
  // ---------------------------------------------------------------------------

  /** After the worker returned, the channel holds exactly what was accepted since. */
  lemma OnlyLateArrivalsAreStranded<T>(s: Line<T>)
    requires Inv(s) && s.worker.Exited?
    ensures s.acceptedAtExit <= |s.accepted|
    ensures Payloads(s.completed) == s.accepted[..s.acceptedAtExit]
    ensures s.queue == s.accepted[s.acceptedAtExit..]
  {
  }

  /** A step of the worker goroutine, as opposed to a producer or Close. */
  predicate OfWorker<T>(a: Step<T>) {
    !a.Offer? && !a.Stop?
  }

  /** Bounds the steps the worker can still take once nothing more is offered. */
  function Remaining<T>(s: Line<T>): nat
    requires WorkerOk(s)
  {
    |s.queue| * (s.maxAttempts + 1) +
    match s.worker
    case Waiting(draining) => if draining then 1 else 2
    case Posting(_, outcomes, draining) => s.maxAttempts - |outcomes| + if draining then 1 else 2
    case Exited => 0
  }

  lemma Distribute(n: nat, k: nat)
    ensures (n + 1) * k == n * k + k
  {
  }

  lemma WorkerStepShrinks<T>(s: Line<T>, a: Step<T>)
    requires Inv(s) && Enabled(s, a) && OfWorker(a)
    ensures Inv(Apply(s, a))
    ensures Remaining(Apply(s, a)) < Remaining(s)
  {
    StepKeepsInv(s, a);
    var t := Apply(s, a);
    assert t.maxAttempts == s.maxAttempts;
    if a.Take? {
      assert |s.queue| == |t.queue| + 1;
      Distribute(|t.queue|, s.maxAttempts + 1);
    } else {
      assert |t.queue| == |s.queue|;
    }
  }

  /** Close never deadlocks: until the worker returned, some step of it is possible. */
  lemma WorkerCanMove<T>(s: Line<T>)
    requires Inv(s) && s.stopping && !s.worker.Exited?
    ensures exists a: Step<T> :: OfWorker(a) && Enabled(s, a)
  {
    var a: Step<T> :=
      if s.worker.Posting? then Post(Delivered)
      else if s.queue != [] then Take
      else if s.worker.draining then Exit
      else BeginDrain;
    assert OfWorker(a) && Enabled(s, a);
  }

  /**
    After `stop` is closed and with no later Offer, however the worker's deliveries
    turn out it returns within Remaining(s) steps, and when it can go no further
    everything ever accepted has been delivered or given up on, in order.
    */
  lemma {:induction false} CloseDrains<T>(s: Line<T>, steps: seq<Step<T>>)
    requires Inv(s) && s.stopping && !s.worker.Exited?
    requires forall i :: 0 <= i < |steps| ==> OfWorker(steps[i])
    requires Exec(s, steps).Reached?
    ensures |steps| <= Remaining(s)
    ensures
      var t := Exec(s, steps).line;
      && t.accepted == s.accepted
      && ((forall a: Step<T> :: OfWorker(a) ==> !Enabled(t, a)) ==>
            t.worker.Exited? && t.queue == [] && Payloads(t.completed) == s.accepted)
    decreases |steps|
  {
    if steps == [] {
      WorkerCanMove(s);
    } else {
      var a := steps[0];
      var t := Apply(s, a);
      WorkerStepShrinks(s, a);
      if t.worker.Exited? {
        NothingAfterExit(t, steps[1..]);
        OnlyLateArrivalsAreStranded(t);
      } else {
        CloseDrains(t, steps[1..]);
      }
    }
  }

  lemma NothingAfterExit<T>(s: Line<T>, steps: seq<Step<T>>)
    requires s.worker.Exited? && Exec(s, steps).Reached?
    requires forall i :: 0 <= i < |steps| ==> OfWorker(steps[i])
    ensures steps == []
  {
  }
}
