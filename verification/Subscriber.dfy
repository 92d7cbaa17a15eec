/** What reaches the subscriber of the webhook, against what was accepted for it. */
module Subscriber {
  import opened Telemetry
  import opened Seqs
  import opened AlertPayloads
  import opened AlertWords
  import opened AlertProtocol
  import opened AlertRuns
  import Queue = DeliveryQueue

  /** The payloads that at least one attempt was made on, in order. */
  function Posted(line: Queue.Line<Payload>): seq<Payload> {
    Queue.Payloads(line.completed) +
    if line.worker.Posting? && line.worker.outcomes != [] then [line.worker.payload] else []
  }

  /** The payloads that were delivered, in order. */
  function DeliveredTo(ds: seq<Queue.Delivery<Payload>>): seq<Payload> {
    Queue.Payloads(Queue.Successes(ds))
  }

  predicate NoneFailed(ds: seq<Queue.Delivery<Payload>>, id: string) {
    forall i :: 0 <= i < |ds| && ds[i].payload.id == id ==> Queue.Succeeded(ds[i])
  }

  /** Whatever failed for the ID came after everything delivered for it. */
  predicate NoneFailedBefore(ds: seq<Queue.Delivery<Payload>>, id: string) {
    forall i, j :: 0 <= i < j < |ds| && ds[i].payload.id == id == ds[j].payload.id && Queue.Succeeded(ds[j]) ==>
      Queue.Succeeded(ds[i])
  }

  /** What one more delivery adds to the payloads tried, and to those that arrived. */
  lemma OneMore(ds: seq<Queue.Delivery<Payload>>, id: string)
    requires ds != []
    ensures
      var init, d := ds[..|ds| - 1], ds[|ds| - 1];
      var tried, arrived := Word(Queue.Payloads(init), id), Word(DeliveredTo(init), id);
      && Word(Queue.Payloads(ds), id) == (if d.payload.id == id then tried + [d.payload] else tried)
      && Word(DeliveredTo(ds), id) ==
         if d.payload.id == id && Queue.Succeeded(d) then arrived + [d.payload] else arrived
  {
    var init, d := ds[..|ds| - 1], ds[|ds| - 1];
    assert Queue.Payloads(ds) == Queue.Payloads(init) + [d.payload];
    FilterAppend(Queue.Payloads(init), d.payload, Concerns(id));
    if Queue.Succeeded(d) {
      assert DeliveredTo(ds) == DeliveredTo(init) + [d.payload];
      FilterAppend(DeliveredTo(init), d.payload, Concerns(id));
    } else {
      assert DeliveredTo(ds) == DeliveredTo(init);
    }
  }

  /** The subscriber gets the whole word of an ID exactly when no delivery for it failed. */
  lemma {:induction false} DeliveredInFullExactlyWhen(ds: seq<Queue.Delivery<Payload>>, id: string)
    ensures |Word(DeliveredTo(ds), id)| <= |Word(Queue.Payloads(ds), id)|
    ensures Word(DeliveredTo(ds), id) == Word(Queue.Payloads(ds), id) <==> NoneFailed(ds, id)
  {
    if ds != [] {
      var init, d := ds[..|ds| - 1], ds[|ds| - 1];
      OneMore(ds, id);
      DeliveredInFullExactlyWhen(init, id);
      assert NoneFailed(ds, id) <==> NoneFailed(init, id) && (d.payload.id == id ==> Queue.Succeeded(d));
      SameBeginning(Word(DeliveredTo(init), id), Word(Queue.Payloads(init), id), d.payload);
    }
  }

  lemma SameBeginning(a: seq<Payload>, b: seq<Payload>, p: Payload)
    ensures a + [p] == b + [p] <==> a == b
  {
    if a + [p] == b + [p] {
      assert a == (a + [p])[..|a|] == (b + [p])[..|b|] == b;
    }
  }

  /** It gets a beginning of that word when all it missed so far is the end. */
  lemma {:induction false} DeliveredBeginning(ds: seq<Queue.Delivery<Payload>>, id: string)
    requires NoneFailedBefore(ds, id)
    ensures Word(DeliveredTo(ds), id) <= Word(Queue.Payloads(ds), id)
  {
    if ds != [] {
      var init, d := ds[..|ds| - 1], ds[|ds| - 1];
      OneMore(ds, id);
      DeliveredBeginning(init, id);
      if d.payload.id == id && Queue.Succeeded(d) {
        assert NoneFailed(init, id);
        DeliveredInFullExactlyWhen(init, id);
      }
    }
  }

  // ---------------------------------------------------------------------------
  // When what arrives is well-formed although something failed
  // ---------------------------------------------------------------------------

  /**
    The subscriber is where the sender was before it posted p: it has an alert open exactly
    if the sender had, last heard of at the severity the sender gave it, and, when p
    resolves it, under the identity the sender gave it.
    */
  predicate InStep(arrived: seq<Payload>, tried: seq<Payload>, p: Payload) {
    && (MidEpisode(arrived) <==> MidEpisode(tried))
    && (MidEpisode(tried) ==>
          var a, t := arrived[|arrived| - 1], tried[|tried| - 1];
          a.severity == t.severity && (p.event == Resolved ==> IdentityOf(a) == IdentityOf(t)))
  }

  /** Delivery j, if it is for the ID and got through, found the subscriber in step. */
  predicate FindsInStep(ds: seq<Queue.Delivery<Payload>>, id: string, j: nat)
    requires j < |ds|
  {
    ds[j].payload.id == id && Queue.Succeeded(ds[j]) ==>
      InStep(Word(DeliveredTo(ds[..j]), id), Word(Queue.Payloads(ds[..j]), id), ds[j].payload)
  }

  predicate AlwaysInStep(ds: seq<Queue.Delivery<Payload>>, id: string) {
    forall j :: 0 <= j < |ds| ==> FindsInStep(ds, id, j)
  }

  /** A payload that continues what was tried continues what arrived exactly when in step. */
  lemma ContinuesExactlyWhen(arrived: seq<Payload>, tried: seq<Payload>, p: Payload)
    requires LinkOk(tried + [p], |tried|)
    ensures LinkOk(arrived + [p], |arrived|) <==> InStep(arrived, tried, p)
  {
    assert (tried + [p])[|tried|] == p && (arrived + [p])[|arrived|] == p;
    assert tried != [] ==> (tried + [p])[|tried| - 1] == tried[|tried| - 1];
    assert arrived != [] ==> (arrived + [p])[|arrived| - 1] == arrived[|arrived| - 1];
  }

  lemma WordOkNext(w: seq<Payload>, p: Payload)
    ensures WordOk(w + [p]) <==> WordOk(w) && LinkOk(w + [p], |w|)
  {
    if WordOk(w + [p]) {
      PrefixWordOk(w + [p], |w|);
      assert (w + [p])[..|w|] == w;
    } else if WordOk(w) && LinkOk(w + [p], |w|) {
      ExtendWord(w, p);
    }
  }

  lemma InStepNext(ds: seq<Queue.Delivery<Payload>>, id: string)
    requires ds != []
    ensures AlwaysInStep(ds, id) <==> AlwaysInStep(ds[..|ds| - 1], id) && FindsInStep(ds, id, |ds| - 1)
  {
    var init := ds[..|ds| - 1];
    forall j | 0 <= j < |init|
      ensures FindsInStep(ds, id, j) <==> FindsInStep(init, id, j)
    {
      assert ds[..j] == init[..j];
    }
  }

  /** What arrives of a well-formed word is well-formed exactly when every arrival was in step. */
  lemma {:induction false} ArrivedIsWellFormedExactlyWhen(ds: seq<Queue.Delivery<Payload>>, id: string)
    requires WordOk(Word(Queue.Payloads(ds), id))
    ensures WordOk(Word(DeliveredTo(ds), id)) <==> AlwaysInStep(ds, id)
  {
    if ds != [] {
      var init, d := ds[..|ds| - 1], ds[|ds| - 1];
      var arrived, tried := Word(DeliveredTo(init), id), Word(Queue.Payloads(init), id);
      OneMore(ds, id);
      InStepNext(ds, id);
      WordOkNext(tried, d.payload);
      ArrivedIsWellFormedExactlyWhen(init, id);
      if d.payload.id == id && Queue.Succeeded(d) {
        ContinuesExactlyWhen(arrived, tried, d.payload);
        WordOkNext(arrived, d.payload);
      }
    }
  }

  lemma PostedIsBeginning(line: Queue.Line<Payload>)
    requires Queue.Inv(line)
    ensures Queue.Payloads(line.completed) <= Posted(line) <= line.accepted
  {
  }

  lemma BeginningIsWellFormed(s: Alerts, ps: seq<Payload>, id: string)
    requires Reachable(s) && ps <= s.line.accepted
    ensures Word(ps, id) <= Word(s.line.accepted, id) && WordOk(Word(ps, id))
  {
    AcceptedAlertsFormEpisodes(s, id);
    assert s.line.accepted[..|ps|] == ps;
    WordOfPrefix(s.line.accepted, |ps|, id);
    var v, w := Word(ps, id), Word(s.line.accepted, id);
    assert v == w[..|v|];
    PrefixWordOk(w, |v|);
  }

  /** What has been tried is the beginning of what was accepted, overall and per ID. */
  lemma PostedAlertsFormEpisodes(s: Alerts, id: string)
    requires Reachable(s)
    ensures Posted(s.line) <= s.line.accepted
    ensures Word(Posted(s.line), id) <= Word(s.line.accepted, id) && WordOk(Word(Posted(s.line), id))
  {
    ReachableInv(s);
    PostedIsBeginning(s.line);
    BeginningIsWellFormed(s, Posted(s.line), id);
  }

  /**
    What has arrived for an ID is all that was completed for it exactly when none of it
    failed, and a well-formed word exactly when every arrival found the subscriber in step:
    for one when nothing failed before a success, and then it is a beginning.
    */
  lemma DeliveredAlertsFormEpisodes(s: Alerts, id: string)
    requires Reachable(s)
    ensures
      var arrived, done := Word(DeliveredTo(s.line.completed), id), Word(Queue.Payloads(s.line.completed), id);
      && done <= Word(s.line.accepted, id)
      && (arrived == done <==> NoneFailed(s.line.completed, id))
      && (WordOk(arrived) <==> AlwaysInStep(s.line.completed, id))
      && (NoneFailedBefore(s.line.completed, id) ==> arrived <= done && WordOk(arrived))
    ensures s.line.sent == |DeliveredTo(s.line.completed)|
  {
    ReachableInv(s);
    PostedIsBeginning(s.line);
    BeginningIsWellFormed(s, Queue.Payloads(s.line.completed), id);
    DeliveredInFullExactlyWhen(s.line.completed, id);
    ArrivedIsWellFormedExactlyWhen(s.line.completed, id);
    if NoneFailedBefore(s.line.completed, id) {
      DeliveredBeginning(s.line.completed, id);
      var arrived, done := Word(DeliveredTo(s.line.completed), id), Word(Queue.Payloads(s.line.completed), id);
      assert arrived == done[..|arrived|];
      PrefixWordOk(done, |arrived|);
    }
  }

  /** An outage that swallows a whole episode leaves the subscriber in step for the next. */
  lemma WholeEpisodesMayBeMissed(ds: seq<Queue.Delivery<Payload>>, id: string)
    requires |ds| == 3 && forall i :: 0 <= i < 3 ==> ds[i].payload.id == id
    requires ds[0].payload.event == Firing && ds[1].payload.event == Resolved && ds[2].payload.event == Firing
    requires !Queue.Succeeded(ds[0]) && !Queue.Succeeded(ds[1]) && Queue.Succeeded(ds[2])
    ensures AlwaysInStep(ds, id) && !NoneFailedBefore(ds, id)
  {
    TwoMissed(ds[..2], id);
    assert ds[..2][0] == ds[0] && ds[..2][1] == ds[1];
  }

  lemma TwoMissed(ds: seq<Queue.Delivery<Payload>>, id: string)
    requires |ds| == 2 && ds[0].payload.id == id == ds[1].payload.id
    requires !Queue.Succeeded(ds[0]) && !Queue.Succeeded(ds[1])
    ensures Word(DeliveredTo(ds), id) == [] && Word(Queue.Payloads(ds), id) == [ds[0].payload, ds[1].payload]
  {
    assert ds[..1][..0] == [];
    OneMore(ds[..1], id);
    OneMore(ds, id);
  }

  // ---------------------------------------------------------------------------
  // What a subscriber cannot rely on
  // ---------------------------------------------------------------------------

  /** The first transition of a relevant finding is in the hands of the goroutine. */
  predicate FirstInFlight(s: Alerts, rec: Recommendation, now: int) {
    var p := FiringPayload(rec, Firing, Unknown(""), s.cluster, now);
    && s.pos.Idle? && s.line.capacity > 0 && s.line.maxAttempts == DELIVERY_ATTEMPTS
    && s.line.queue == [] && s.line.completed == [] && s.line.accepted == [p]
    && s.line.worker == Queue.Posting(p, [], false)
    && s.open == map[rec.id := NewOpenAlert(rec)]
  }

  lemma FirstGoesOut(rec: Recommendation, now: int, minSeverity: Severity, cluster: string) returns (s: Alerts)
    requires Relevant(rec, minSeverity)
    ensures Reachable(s) && FirstInFlight(s, rec, now)
    ensures s.minSeverity == minSeverity && s.cluster == cluster
  {
    s := Init(1, minSeverity, cluster);
    assert Exec(Init(1, minSeverity, cluster), []) == Reached(s);
    s := Then(s, Begin([rec], now));
    s := Then(s, Scan);
    s := Then(s, EndScan);
    assert Findings([rec][..0], minSeverity) == map[];
    assert s.pos.todo == {};
    s := Then(s, Return);
    s := Then(s, Goroutine(Queue.Take));
  }

  lemma Then(s: Alerts, a: Step) returns (t: Alerts)
    requires Reachable(s) && Enabled(s, a)
    ensures Reachable(t) && t == Apply(s, a)
  {
    t := Apply(s, a);
    ReachableNext(s, a);
  }

  /** The attempt in hand ends the delivery. */
  lemma Answered(s: Alerts, o: Queue.Outcome) returns (t: Alerts)
    requires Reachable(s) && s.line.worker.Posting? && s.line.maxAttempts == DELIVERY_ATTEMPTS
    requires o == Queue.Retryable ==> s.line.worker.outcomes != []
    ensures Reachable(t)
    ensures
      var d := Queue.Delivery(s.line.worker.payload, s.line.worker.outcomes + [o]);
      t == s.(line := t.line) && t.line.queue == s.line.queue && t.line.accepted == s.line.accepted
      && t.line.capacity == s.line.capacity && t.line.maxAttempts == s.line.maxAttempts
      && t.line.worker == Queue.Waiting(s.line.worker.draining) && t.line.completed == s.line.completed + [d]
  {
    t := Then(s, Goroutine(Queue.Post(o)));
  }

  lemma NothingPresent(recs: seq<Recommendation>, minSeverity: Severity)
    requires recs == []
    ensures Present(recs, minSeverity) == {}
  {
  }

  /** The only open alert is no longer found; its resolution goes out. */
  lemma ResolutionGoesOut(s: Alerts, a: OpenAlert, now: int) returns (t: Alerts)
    requires Reachable(s) && s.pos.Idle? && s.open == map[a.id := a]
    requires s.line.capacity > 0 && s.line.queue == [] && s.line.worker == Queue.Waiting(false)
    ensures Reachable(t)
    ensures t.line.worker == Queue.Posting(ResolvedPayload(a, s.cluster, now), [], false)
    ensures t.line.completed == s.line.completed && t.line.maxAttempts == s.line.maxAttempts
  {
    t := Then(s, Begin([], now));
    NothingPresent(t.pos.call.recs, s.minSeverity);
    assert s.open.Keys == {a.id};
    t := Then(t, EndScan);
    assert t.pos.todo == {a.id} - {} == {a.id};
    t := Then(t, Resolve(a.id));
    t := Then(t, Goroutine(Queue.Take));
  }

  /** A failed delivery followed by one that arrived. */
  lemma OnlyTheSecondArrives(a: Queue.Delivery<Payload>, b: Queue.Delivery<Payload>)
    requires !Queue.Succeeded(a) && Queue.Succeeded(b)
    ensures Word(DeliveredTo([a] + [b]), b.payload.id) == [b.payload]
  {
    OneMore([a], b.payload.id);
    OneMore([a] + [b], b.payload.id);
    assert ([a] + [b])[..1] == [a] && [a][..0] == [];
  }

  /**
    A rejected firing payload is not sent again, so the resolution that follows it can be
    all a subscriber ever gets of an ID.
    */
  lemma ResolutionCanArriveAlone(rec: Recommendation, now: int, minSeverity: Severity, cluster: string)
    returns (s: Alerts)
    requires Relevant(rec, minSeverity)
    ensures Reachable(s)
    ensures
      var arrived := Word(DeliveredTo(s.line.completed), rec.id);
      arrived == [ResolvedPayload(NewOpenAlert(rec), cluster, now)] && !WordOk(arrived)
  {
    s := FirstGoesOut(rec, now, minSeverity, cluster);
    s := Answered(s, Queue.Permanent);
    var missed := s.line.completed[0];
    assert missed.outcomes == [Queue.Permanent] && s.line.completed == [missed];
    s := ResolutionGoesOut(s, NewOpenAlert(rec), now);
    s := Answered(s, Queue.Delivered);
    var d := s.line.completed[1];
    assert d.outcomes == [Queue.Delivered] && s.line.completed == [missed] + [d];
    OnlyTheSecondArrives(missed, d);
    assert !LinkOk([d.payload], 0);
  }

  /** An answer that was lost makes the sender post again, so one transition can arrive twice. */
  lemma TransitionCanBePostedTwice(rec: Recommendation, now: int, minSeverity: Severity, cluster: string)
    returns (s: Alerts)
    requires Relevant(rec, minSeverity)
    ensures Reachable(s) && |s.line.accepted| == 1
    ensures s.line.completed == [Queue.Delivery(s.line.accepted[0], [Queue.Retryable, Queue.Delivered])]
  {
    s := FirstGoesOut(rec, now, minSeverity, cluster);
    s := Then(s, Goroutine(Queue.Post(Queue.Retryable)));
    assert s.line.worker.outcomes == [Queue.Retryable];
    s := Answered(s, Queue.Delivered);
    assert [Queue.Retryable] + [Queue.Delivered] == [Queue.Retryable, Queue.Delivered];
  }
}
