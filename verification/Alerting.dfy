/** What an alert carries and which transition a finding calls for: internal/alerting/payload.go. */
module AlertPayloads {
  import opened Telemetry

  datatype Event = Firing | Escalated | Resolved

  datatype Payload = Payload(
    event: Event,
    id: string,
    code: string,
    severity: Severity,
    previousSeverity: Option<Severity>,
    cluster: string,
    namespace: string,
    workload: string,
    runtime: Runtime,
    title: string,
    observedAt: Option<int>,
    sentAt: int)

  /** The identity kept for a finding that was sent and is not yet resolved. */
  datatype OpenAlert = OpenAlert(
    id: string,
    code: string,
    severity: Severity,
    namespace: string,
    workload: string,
    runtime: Runtime,
    title: string)

  function FiringPayload(rec: Recommendation, event: Event, previous: Severity, cluster: string, now: int): Payload {
    Payload(event, rec.id, rec.code, rec.severity,
            if event == Escalated then Some(previous) else None,
            cluster, rec.namespace, rec.workloadName, rec.runtime, rec.title,
            Some(rec.observedAt), now)
  }

  function ResolvedPayload(a: OpenAlert, cluster: string, now: int): Payload {
    Payload(Resolved, a.id, a.code, Info, Some(a.severity),
            cluster, a.namespace, a.workload, a.runtime, a.title, None, now)
  }

  function NewOpenAlert(rec: Recommendation): OpenAlert {
    OpenAlert(rec.id, rec.code, rec.severity, rec.namespace, rec.workloadName, rec.runtime, rec.title)
  }

  /** The identity a subscriber can read off a firing or escalated payload. */
  function IdentityOf(p: Payload): OpenAlert {
    OpenAlert(p.id, p.code, p.severity, p.namespace, p.workload, p.runtime, p.title)
  }
}

/** The grammar of the alerts accepted for one ID. */
module AlertWords {
  import opened Telemetry
  import opened Seqs
  import opened AlertPayloads

  /** The payloads of one ID, in order. */
  function Word(ps: seq<Payload>, id: string): seq<Payload> {
    Filter(ps, Concerns(id))
  }

  function Concerns(id: string): Payload -> bool {
    (p: Payload) => p.id == id
  }

  /** What the payload at position j owes to the one before it. */
  predicate LinkOk(w: seq<Payload>, j: nat)
    requires j < |w|
  {
    match w[j].event
    case Firing =>
      && (j == 0 || w[j - 1].event == Resolved)
      && w[j].previousSeverity == None
    case Escalated =>
      && j > 0 && w[j - 1].event != Resolved
      && w[j].previousSeverity == Some(w[j - 1].severity)
      && w[j].severity.Rank() < w[j - 1].severity.Rank()
    case Resolved =>
      && j > 0 && w[j - 1].event != Resolved
      && w[j].previousSeverity == Some(w[j - 1].severity)
      && w[j].severity == Info
      && IdentityOf(w[j]) == IdentityOf(w[j - 1]).(severity := Info)
  }

  /** firing escalated* resolved, repeated; the last episode may be unfinished. */
  predicate WordOk(w: seq<Payload>) {
    forall j :: 0 <= j < |w| ==> LinkOk(w, j)
  }

  predicate MidEpisode(w: seq<Payload>) {
    w != [] && w[|w| - 1].event != Resolved
  }

  lemma ExtendWord(w: seq<Payload>, p: Payload)
    requires WordOk(w) && LinkOk(w + [p], |w|)
    ensures WordOk(w + [p])
  {
    forall j | 0 <= j < |w + [p]|
      ensures LinkOk(w + [p], j)
    {
      if j < |w| {
        assert LinkOk(w, j);
      }
    }
  }

  /** Every beginning of a well-formed word is one. */
  lemma PrefixWordOk(w: seq<Payload>, n: nat)
    requires WordOk(w) && n <= |w|
    ensures WordOk(w[..n])
  {
    forall j | 0 <= j < n
      ensures LinkOk(w[..n], j)
    {
      assert LinkOk(w, j);
    }
  }

  lemma WordOfPrefix(ps: seq<Payload>, n: nat, id: string)
    requires n <= |ps|
    ensures Word(ps[..n], id) <= Word(ps, id)
  {
    assert ps[..n] + ps[n..] == ps;
    FilterConcat(ps[..n], ps[n..], Concerns(id));
  }

  /**
    Each escalation strictly raises the severity, so an episode has at most as many
    escalations as the rank of the payload that opened it: never more than two for a
    severity that exists, however often the finding flaps.
    */
  lemma {:induction false} EscalationsAreBounded(w: seq<Payload>, start: nat, n: nat)
    requires WordOk(w) && start + n < |w|
    requires forall j :: start < j <= start + n ==> w[j].event == Escalated
    ensures w[start + n].severity.Rank() + n <= w[start].severity.Rank()
    ensures n <= w[start].severity.Rank()
  {
    if n > 0 {
      EscalationsAreBounded(w, start, n - 1);
      assert LinkOk(w, start + n);
    }
  }

  /** Between one resolution and the next there is exactly one firing payload, at the start. */
  lemma {:induction false} OneFiringPerEpisode(w: seq<Payload>, i: nat, j: nat)
    requires WordOk(w) && i < j < |w|
    requires w[i].event == Firing && w[j].event == Firing
    ensures exists k :: i < k < j && w[k].event == Resolved
  {
    assert LinkOk(w, j);
    assert w[j - 1].event == Resolved;
    assert i != j - 1;
  }
}
