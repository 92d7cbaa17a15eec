/** Counter differencing: internal/collector/rate.go, and the ratios of applyRates. */
module Rates {
  import opened Telemetry
  import opened Reals
  import opened Seqs

  datatype Entry = Entry(value: real, at: int)

  const NANOS_PER_SECOND := 1_000_000_000

  function Seconds(nanos: int): real {
    nanos as real / NANOS_PER_SECOND as real
  }

  /** The per-second rate since the previous observation, when there is one to report. */
  function RateSince(prev: Option<Entry>, current: real, now: int): Option<real> {
    match prev
    case None => None
    case Some(p) =>
      var elapsed := Seconds(now - p.at);
      if elapsed <= 0.0 then None
      else if current - p.value < 0.0 then None
      else Some((current - p.value) / elapsed)
  }

  function Lookup(entries: map<string, Entry>, key: string): Option<Entry> {
    if key in entries then Some(entries[key]) else None
  }

  class RateTracker {
    var entries: map<string, Entry>
    ghost var seen: seq<Observation>

    ghost predicate Valid()
      reads this
    {
      entries == Run(seen)
    }

    constructor ()
      ensures Valid() && seen == []
    {
      entries, seen := map[], [];
    }

    /** Records the observation and reports the rate over the interval it closes. */
    method Rate(key: string, current: real, now: int) returns (rate: Option<real>)
      requires Valid()
      modifies this
      ensures Valid() && seen == old(seen) + [Observation(key, current, now)]
      ensures entries == old(entries)[key := Entry(current, now)]
      ensures rate == RateSince(Lookup(old(entries), key), current, now)
    {
      assert (seen + [Observation(key, current, now)])[..|seen|] == seen;
      seen := seen + [Observation(key, current, now)];
      var known := key in entries;
      var prev := if known then entries[key] else Entry(0.0, 0);
      entries := entries[key := Entry(current, now)];
      if !known {
        return None;
      }
      var elapsed := Seconds(now - prev.at);
      if elapsed <= 0.0 {
        return None;
      }
      var delta := current - prev.value;
      if delta < 0.0 {
        return None;
      }
      return Some(delta / elapsed);
    }
  }

  // ---------------------------------------------------------------------------
  // Runs
  // ---------------------------------------------------------------------------

  datatype Observation = Observation(key: string, value: real, at: int)

  function Run(os: seq<Observation>): map<string, Entry> {
    if os == [] then map[]
    else
      var o := os[|os| - 1];
      Run(os[..|os| - 1])[o.key := Entry(o.value, o.at)]
  }

  /** The observations of one counter. */
  function Of(os: seq<Observation>, key: string): seq<Observation> {
    Filter(os, IsOf(key))
  }

  function IsOf(key: string): Observation -> bool {
    (o: Observation) => o.key == key
  }

  /** What a tracker reports of one counter over a whole run: rate times elapsed, interval by interval. */
  function Reported(os: seq<Observation>, key: string): real {
    if os == [] then 0.0
    else
      var init, o := os[..|os| - 1], os[|os| - 1];
      Reported(init, key) + if o.key == key then Increase(Lookup(Run(init), key), o) else 0.0
  }

  function Increase(prev: Option<Entry>, o: Observation): real {
    match prev
    case None => 0.0
    case Some(p) =>
      var rate := RateSince(prev, o.value, o.at);
      if rate.Some? then Times(rate.value, Seconds(o.at - p.at)) else 0.0
  }

  function LastOf(own: seq<Observation>): Option<Entry> {
    if own == [] then None else Some(Entry(own[|own| - 1].value, own[|own| - 1].at))
  }

  /** The tracker remembers the last observation of each counter, whatever else was scraped. */
  lemma {:induction false} OthersDoNotInterfere(os: seq<Observation>, key: string)
    ensures Lookup(Run(os), key) == LastOf(Of(os, key))
  {
    if os != [] {
      OthersDoNotInterfere(os[..|os| - 1], key);
    }
  }

  /** An interval is unmeasured exactly on first sight, a reset, or a clock that did not advance. */
  lemma {:induction false} UnmeasuredExactlyWhen(os: seq<Observation>, o: Observation)
    ensures RateSince(Lookup(Run(os), o.key), o.value, o.at).None? <==>
      var own := Of(os, o.key);
      own == [] || o.at <= own[|own| - 1].at || o.value < own[|own| - 1].value
  {
    OthersDoNotInterfere(os, o.key);
  }

  lemma RatesAreNonNegative(prev: Option<Entry>, current: real, now: int)
    ensures var r := RateSince(prev, current, now); r.Some? ==> r.value >= 0.0
  {
  }

  lemma RateTimesElapsed(p: Entry, current: real, now: int)
    requires RateSince(Some(p), current, now).Some?
    ensures Times(RateSince(Some(p), current, now).value, Seconds(now - p.at)) == current - p.value
  {
  }

  /** The increase over the intervals that were measured. */
  function Measured(own: seq<Observation>): real {
    if |own| < 2 then 0.0
    else
      var o, p := own[|own| - 1], own[|own| - 2];
      Measured(own[..|own| - 1]) + if o.at > p.at && o.value >= p.value then o.value - p.value else 0.0
  }

  /** One more observation adds what is reported for the interval it closes. */
  lemma MeasuredNext(own: seq<Observation>, o: Observation)
    ensures Measured(own + [o]) == Measured(own) + Increase(LastOf(own), o)
  {
    if own != [] {
      var p := own[|own| - 1];
      assert (own + [o])[..|own|] == own && (own + [o])[|own| - 1] == p;
      if RateSince(LastOf(own), o.value, o.at).Some? {
        RateTimesElapsed(Entry(p.value, p.at), o.value, o.at);
      }
    }
  }

  /**
    The rates reported for a counter account for exactly the increase over its measured
    intervals, resets or not, whatever other counters are scraped in between.
    */
  lemma {:induction false} RatesCoverMeasuredIncrease(os: seq<Observation>, key: string)
    ensures Reported(os, key) == Measured(Of(os, key))
  {
    if os != [] {
      var init, o := os[..|os| - 1], os[|os| - 1];
      RatesCoverMeasuredIncrease(init, key);
      assert os == init + [o];
      FilterAppend(init, o, IsOf(key));
      if o.key == key {
        OthersDoNotInterfere(init, key);
        MeasuredNext(Of(init, key), o);
      }
    }
  }

  /** Without resets and with an advancing clock the counter's rates add up to last minus first. */
  lemma RatesTelescope(os: seq<Observation>, key: string)
    requires Of(os, key) != []
    requires
      var own := Of(os, key);
      forall i :: 0 <= i < |own| - 1 ==> own[i].at < own[i + 1].at && own[i].value <= own[i + 1].value
    ensures var own := Of(os, key); Reported(os, key) == own[|own| - 1].value - own[0].value
  {
    RatesCoverMeasuredIncrease(os, key);
    MeasuredTelescopes(Of(os, key));
  }

  lemma {:induction false} MeasuredTelescopes(own: seq<Observation>)
    requires own != []
    requires forall i :: 0 <= i < |own| - 1 ==> own[i].at < own[i + 1].at && own[i].value <= own[i + 1].value
    ensures Measured(own) == own[|own| - 1].value - own[0].value
  {
    if |own| >= 2 {
      MeasuredTelescopes(own[..|own| - 1]);
      assert own[|own| - 2].at < own[|own| - 2 + 1].at;
    }
  }

  // ---------------------------------------------------------------------------
  // Ratios
  // ---------------------------------------------------------------------------

  /** The share of failures among everything that completed, when anything did. */
  function ErrorShare(failed: Option<real>, finished: Option<real>): Option<real> {
    if failed.Some? && finished.Some? && finished.value + failed.value > 0.0 then
      Some(failed.value / (finished.value + failed.value) * 100.0)
    else None
  }

  /** The reported error rate is a percentage. */
  lemma ErrorShareIsPercentage(fp: Option<Entry>, f: real, np: Option<Entry>, n: real, now: int)
    ensures
      var share := ErrorShare(RateSince(fp, f, now), RateSince(np, n, now));
      share.Some? ==> 0.0 <= share.value <= 100.0
  {
    RatesAreNonNegative(fp, f, now);
    RatesAreNonNegative(np, n, now);
    var failed, finished := RateSince(fp, f, now), RateSince(np, n, now);
    if ErrorShare(failed, finished).Some? {
      PartOfWhole(failed.value, finished.value + failed.value);
    }
  }

  lemma PartOfWhole(part: real, whole: real)
    requires 0.0 <= part <= whole && whole > 0.0
    ensures 0.0 <= part / whole * 100.0 <= 100.0
  {
    FractionOrder(0.0, part, whole);
    FractionOrder(part, whole, whole);
  }
}
