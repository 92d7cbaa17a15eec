/**
  The rates and shares one scrape yields, applyRates of internal/collector/collector.go,
  over every run of scrapes.
  */
module Ratios {
  import opened Telemetry
  import opened Reals
  import opened Seqs
  import opened Rates

  datatype Counter =
    | GenerationTokens | PromptTokens | Preemptions
    | RequestsFinished | RequestsFailed | RequestsAborted
    | PrefixCacheQueries | PrefixCacheHits

  function CounterName(c: Counter): string {
    match c
    case GenerationTokens => "generation_tokens"
    case PromptTokens => "prompt_tokens"
    case Preemptions => "preemptions"
    case RequestsFinished => "requests_finished"
    case RequestsFailed => "requests_failed"
    case RequestsAborted => "requests_aborted"
    case PrefixCacheQueries => "prefix_cache_queries"
    case PrefixCacheHits => "prefix_cache_hits"
  }

  function CounterKey(target: string, c: Counter): string {
    target + "|" + CounterName(c)
  }

  /** The counters in the order they are looked up. */
  const ORDER := [GenerationTokens, PromptTokens, Preemptions, RequestsFinished, RequestsFailed,
                  RequestsAborted, PrefixCacheQueries, PrefixCacheHits]

  /** What one scrape of a target reports. */
  datatype Scrape = Scrape(target: string, counters: map<Counter, real>, at: int)

  /** The rate of one counter, which a scrape may lack. */
  function RateOf(entries: map<string, Entry>, s: Scrape, c: Counter): Option<real> {
    if c in s.counters then RateSince(Lookup(entries, CounterKey(s.target, c)), s.counters[c], s.at) else None
  }

  /** Part of a whole, in percent, when there is a whole. */
  function Share(part: Option<real>, whole: Option<real>): Option<real> {
    if part.Some? && whole.Some? && whole.value > 0.0 then Some(part.value / whole.value * 100.0) else None
  }

  datatype Derived = Derived(
    tokensPerSecond: Option<real>,
    promptTokensPerSec: Option<real>,
    preemptionsPerSec: Option<real>,
    requestRatePerSec: Option<real>,
    errorRatePct: Option<real>,
    abortRatePct: Option<real>,
    prefixCacheHitRatePct: Option<real>)

  function Derive(entries: map<string, Entry>, s: Scrape): Derived {
    var finished := RateOf(entries, s, RequestsFinished);
    Derived(
      RateOf(entries, s, GenerationTokens),
      RateOf(entries, s, PromptTokens),
      RateOf(entries, s, Preemptions),
      finished,
      ErrorShare(RateOf(entries, s, RequestsFailed), finished),
      Share(RateOf(entries, s, RequestsAborted), finished),
      Share(RateOf(entries, s, PrefixCacheHits), RateOf(entries, s, PrefixCacheQueries)))
  }

  /** The tracker after some of the counters of a scrape were looked up. */
  function Recorded(entries: map<string, Entry>, s: Scrape, cs: seq<Counter>): map<string, Entry> {
    if cs == [] then entries
    else
      var c, before := cs[|cs| - 1], Recorded(entries, s, cs[..|cs| - 1]);
      if c in s.counters then before[CounterKey(s.target, c) := Entry(s.counters[c], s.at)] else before
  }

  // ---------------------------------------------------------------------------
  // The program
  // ---------------------------------------------------------------------------

  /** The rate of the k-th counter, if the scrape has it. */
  method RateFor(rates: RateTracker, s: Scrape, c: Counter, ghost entries: map<string, Entry>, ghost k: nat)
    returns (rate: Option<real>)
    requires rates.Valid() && k < |ORDER| && c == ORDER[k]
    requires rates.entries == Recorded(entries, s, ORDER[..k])
    modifies rates
    ensures rates.Valid() && rates.entries == Recorded(entries, s, ORDER[..k + 1])
    ensures rate == RateOf(entries, s, c)
  {
    TakeIsSnoc(ORDER, k);
    if c !in s.counters {
      return None;
    }
    LookedUpOnce(k);
    RecordedAt(entries, s, ORDER[..k], s.target, c);
    rate := rates.Rate(CounterKey(s.target, c), s.counters[c], s.at);
  }

  /** The request rate, and the shares of requests that failed and that were aborted. */
  method RequestRates(rates: RateTracker, s: Scrape, ghost entries: map<string, Entry>)
    returns (finished: Option<real>, errorRate: Option<real>, abortRate: Option<real>)
    requires rates.Valid() && rates.entries == Recorded(entries, s, ORDER[..3])
    modifies rates
    ensures rates.Valid() && rates.entries == Recorded(entries, s, ORDER[..6])
    ensures finished == RateOf(entries, s, RequestsFinished)
    ensures errorRate == ErrorShare(RateOf(entries, s, RequestsFailed), finished)
    ensures abortRate == Share(RateOf(entries, s, RequestsAborted), finished)
  {
    finished := RateFor(rates, s, RequestsFinished, entries, 3);
    var failed := RateFor(rates, s, RequestsFailed, entries, 4);
    errorRate := ErrorShare(failed, finished);
    var aborted := RateFor(rates, s, RequestsAborted, entries, 5);
    abortRate := Share(aborted, finished);
  }

  method CacheHitRate(rates: RateTracker, s: Scrape, ghost entries: map<string, Entry>) returns (hitRate: Option<real>)
    requires rates.Valid() && rates.entries == Recorded(entries, s, ORDER[..6])
    modifies rates
    ensures rates.Valid() && rates.entries == Recorded(entries, s, ORDER)
    ensures hitRate == Share(RateOf(entries, s, PrefixCacheHits), RateOf(entries, s, PrefixCacheQueries))
  {
    var queries := RateFor(rates, s, PrefixCacheQueries, entries, 6);
    var hits := RateFor(rates, s, PrefixCacheHits, entries, 7);
    assert ORDER[..8] == ORDER;
    hitRate := Share(hits, queries);
  }

  /**
    Looks every counter up, and combines the rates of those that have one. `ss` are the
    scrapes so far; what is derived says of them which counters grew by how much.
    */
  method ApplyRates(rates: RateTracker, s: Scrape, ghost ss: seq<Scrape>) returns (d: Derived)
    requires rates.Valid() && rates.entries == Tracked(ss)
    modifies rates
    ensures rates.Valid() && rates.entries == Tracked(ss + [s])
    ensures d == Derive(Tracked(ss), s) && IsDerived(ss, s, d)
  {
    ghost var entries := rates.entries;
    var generation := RateFor(rates, s, GenerationTokens, entries, 0);
    var prompt := RateFor(rates, s, PromptTokens, entries, 1);
    var preemptions := RateFor(rates, s, Preemptions, entries, 2);
    var finished, errorRate, abortRate := RequestRates(rates, s, entries);
    var hitRate := CacheHitRate(rates, s, entries);
    d := Derived(generation, prompt, preemptions, finished, errorRate, abortRate, hitRate);
    TrackedNext(ss, s);
    DerivedIs(ss, s);
  }

  lemma TrackedNext(ss: seq<Scrape>, s: Scrape)
    ensures Tracked(ss + [s]) == Recorded(Tracked(ss), s, ORDER)
  {
    assert (ss + [s])[..|ss|] == ss;
  }

  // ---------------------------------------------------------------------------
  // Keys do not collide
  // ---------------------------------------------------------------------------

  lemma NamesHaveNoBar(c: Counter)
    ensures '|' !in CounterName(c)
  {
  }

  /** Reads a counter back from its name. */
  function CounterOf(name: string): Counter
    requires |name| > 9
  {
    match |name|
    case 17 => if name[0] == 'g' then GenerationTokens else if name[0] == 'r' then RequestsFinished else PrefixCacheHits
    case 13 => PromptTokens
    case 11 => Preemptions
    case 15 => RequestsFailed
    case 16 => RequestsAborted
    case _ => PrefixCacheQueries
  }

  lemma NamesAreDistinct(c: Counter)
    ensures |CounterName(c)| > 9 && CounterOf(CounterName(c)) == c
  {
  }

  lemma KeysAreDistinct(s: string, c: Counter, t: string, d: Counter)
    requires CounterKey(s, c) == CounterKey(t, d)
    ensures s == t && c == d
  {
    NamesHaveNoBar(c);
    NamesHaveNoBar(d);
    NamesAreDistinct(c);
    NamesAreDistinct(d);
    LastBar(s, CounterName(c), t, CounterName(d));
  }

  lemma LastBar(s: string, a: string, t: string, b: string)
    requires s + "|" + a == t + "|" + b && '|' !in a && '|' !in b
    ensures s == t && a == b
  {
    var key := s + "|" + a;
    NoBarAfter(s, a);
    NoBarAfter(t, b);
    assert key[|s|] == '|' && key[|t|] == '|';
    assert key[..|s|] == s && key[..|t|] == t && key[|s| + 1..] == a && key[|t| + 1..] == b;
  }

  lemma NoBarAfter(s: string, a: string)
    requires '|' !in a
    ensures forall j :: |s| < j < |s + "|" + a| ==> (s + "|" + a)[j] != '|'
  {
    forall j | |s| < j < |s + "|" + a|
      ensures (s + "|" + a)[j] != '|'
    {
      assert (s + "|" + a)[j] == a[j - |s| - 1];
    }
  }

  /** Looking counters up re-baselines those the scrape has, and no other key. */
  lemma {:induction false} RecordedAt(entries: map<string, Entry>, s: Scrape, cs: seq<Counter>,
                                      target: string, c: Counter)
    ensures Lookup(Recorded(entries, s, cs), CounterKey(target, c)) ==
            if target == s.target && c in cs && c in s.counters then Some(Entry(s.counters[c], s.at))
            else Lookup(entries, CounterKey(target, c))
  {
    if cs != [] {
      var d := cs[|cs| - 1];
      RecordedAt(entries, s, cs[..|cs| - 1], target, c);
      if CounterKey(target, c) == CounterKey(s.target, d) {
        KeysAreDistinct(target, c, s.target, d);
      }
      assert c in cs <==> c in cs[..|cs| - 1] || c == d;
    }
  }

  // ---------------------------------------------------------------------------
  // Runs of scrapes
  // ---------------------------------------------------------------------------

  /** The tracker after a run of scrapes, of any targets. */
  function Tracked(ss: seq<Scrape>): map<string, Entry> {
    if ss == [] then map[] else Recorded(Tracked(ss[..|ss| - 1]), ss[|ss| - 1], ORDER)
  }

  /** The last scrape of the target that had the counter. */
  function LastSeen(ss: seq<Scrape>, target: string, c: Counter): Option<Entry> {
    if ss == [] then None
    else
      var s := ss[|ss| - 1];
      if s.target == target && c in s.counters then Some(Entry(s.counters[c], s.at))
      else LastSeen(ss[..|ss| - 1], target, c)
  }

  /** The last scrape of the target that had either counter had both. */
  predicate SeenTogether(ss: seq<Scrape>, target: string, a: Counter, b: Counter) {
    ss != [] &&
    var s := ss[|ss| - 1];
    if s.target == target && (a in s.counters || b in s.counters) then a in s.counters && b in s.counters
    else SeenTogether(ss[..|ss| - 1], target, a, b)
  }

  predicate ClockAdvances(ss: seq<Scrape>) {
    forall i, j :: 0 <= i < j < |ss| && ss[i].target == ss[j].target ==> ss[i].at < ss[j].at
  }

  lemma {:induction false} TrackedIsLastSeen(ss: seq<Scrape>, target: string, c: Counter)
    ensures Lookup(Tracked(ss), CounterKey(target, c)) == LastSeen(ss, target, c)
  {
    if ss != [] {
      var init, s := ss[..|ss| - 1], ss[|ss| - 1];
      TrackedIsLastSeen(init, target, c);
      RecordedAt(Tracked(init), s, ORDER, target, c);
      EveryCounterIsLookedUp(c);
    }
  }

  /** Where a counter stands in the order. */
  function Place(c: Counter): nat {
    match c
    case GenerationTokens => 0
    case PromptTokens => 1
    case Preemptions => 2
    case RequestsFinished => 3
    case RequestsFailed => 4
    case RequestsAborted => 5
    case PrefixCacheQueries => 6
    case PrefixCacheHits => 7
  }

  lemma EveryCounterIsLookedUp(c: Counter)
    ensures ORDER[Place(c)] == c && c in ORDER
  {
  }

  lemma LookedUpOnce(k: nat)
    requires k < |ORDER|
    ensures ORDER[k] !in ORDER[..k]
  {
    assert forall i :: 0 <= i < |ORDER| ==> Place(ORDER[i]) == i;
  }

  lemma {:induction false} LastSeenIsAScrape(ss: seq<Scrape>, target: string, c: Counter)
    requires LastSeen(ss, target, c).Some?
    ensures exists i :: 0 <= i < |ss| && ss[i].target == target && ss[i].at == LastSeen(ss, target, c).value.at
  {
    var init, s := ss[..|ss| - 1], ss[|ss| - 1];
    if !(s.target == target && c in s.counters) {
      LastSeenIsAScrape(init, target, c);
      var i :| 0 <= i < |init| && init[i].target == target && init[i].at == LastSeen(init, target, c).value.at;
      assert ss[i] == init[i];
    }
  }

  predicate SameBaseline(ss: seq<Scrape>, target: string, a: Counter, b: Counter) {
    var p, q := LastSeen(ss, target, a), LastSeen(ss, target, b);
    p.Some? && q.Some? && p.value.at == q.value.at
  }

  /** Two counters are measured over the same interval exactly when they were last seen together. */
  lemma {:induction false} IntervalsCoincideExactlyWhen(ss: seq<Scrape>, target: string, a: Counter, b: Counter)
    requires ClockAdvances(ss)
    ensures SameBaseline(ss, target, a, b) <==> SeenTogether(ss, target, a, b)
  {
    if ss != [] {
      var init, s := ss[..|ss| - 1], ss[|ss| - 1];
      assert forall i :: 0 <= i < |init| ==> init[i] == ss[i];
      IntervalsCoincideExactlyWhen(init, target, a, b);
      if s.target == target {
        EarlierThan(init, s, target, a);
        EarlierThan(init, s, target, b);
      }
    }
  }

  lemma EarlierThan(init: seq<Scrape>, s: Scrape, target: string, c: Counter)
    requires forall i :: 0 <= i < |init| && init[i].target == target ==> init[i].at < s.at
    ensures LastSeen(init, target, c).Some? ==> LastSeen(init, target, c).value.at < s.at
  {
    if LastSeen(init, target, c).Some? {
      LastSeenIsAScrape(init, target, c);
    }
  }

  // ---------------------------------------------------------------------------
  // Shares
  // ---------------------------------------------------------------------------

  /** How much a counter grew since the target was last seen with it. */
  function Growth(ss: seq<Scrape>, s: Scrape, c: Counter): real
    requires c in s.counters && LastSeen(ss, s.target, c).Some?
  {
    s.counters[c] - LastSeen(ss, s.target, c).value.value
  }

  lemma MeasuredMeansSeen(ss: seq<Scrape>, s: Scrape, c: Counter)
    requires RateOf(Tracked(ss), s, c).Some?
    ensures c in s.counters && LastSeen(ss, s.target, c).Some?
    ensures RateOf(Tracked(ss), s, c).value >= 0.0 && LastSeen(ss, s.target, c).value.at < s.at
    ensures RateOf(Tracked(ss), s, c).value ==
            Growth(ss, s, c) / Seconds(s.at - LastSeen(ss, s.target, c).value.at)
  {
    TrackedIsLastSeen(ss, s.target, c);
    RateMeans(Lookup(Tracked(ss), CounterKey(s.target, c)), s.counters[c], s.at);
  }

  lemma RateMeans(prev: Option<Entry>, current: real, now: int)
    requires RateSince(prev, current, now).Some?
    ensures prev.Some? && prev.value.at < now && RateSince(prev, current, now).value >= 0.0
    ensures RateSince(prev, current, now).value == (current - prev.value.value) / Seconds(now - prev.value.at)
  {
    RatesAreNonNegative(prev, current, now);
  }

  lemma ShareOrder(part: real, whole: real)
    requires part >= 0.0 && whole > 0.0
    ensures 0.0 <= part / whole * 100.0
    ensures part / whole * 100.0 <= 100.0 <==> part <= whole
  {
    FractionOrder(0.0, part, whole);
    if part <= whole {
      FractionOrder(part, whole, whole);
    } else {
      FractionOrder(whole, part, whole);
    }
    assert whole / whole == 1.0;
  }

  lemma SameDivisor(x: real, y: real, span: real)
    requires span > 0.0
    ensures x / span <= y / span <==> x <= y
  {
    FractionOrder(x, y, span);
    FractionOrder(y, x, span);
  }

  /**
    A reported abort or cache-hit share is never negative. It is at most 100 exactly when
    the part's rate is at most the whole's; over one interval, exactly when the part grew
    by no more than the whole.
    */
  lemma ShareIsPercentageExactlyWhen(ss: seq<Scrape>, s: Scrape, part: Counter, whole: Counter)
    requires ClockAdvances(ss)
    requires Share(RateOf(Tracked(ss), s, part), RateOf(Tracked(ss), s, whole)).Some?
    ensures
      var p, w := RateOf(Tracked(ss), s, part), RateOf(Tracked(ss), s, whole);
      var share := Share(p, w).value;
      && 0.0 <= share
      && (share <= 100.0 <==> p.value <= w.value)
      && part in s.counters && whole in s.counters
      && LastSeen(ss, s.target, part).Some? && LastSeen(ss, s.target, whole).Some?
      && (SeenTogether(ss, s.target, part, whole) ==>
            (share <= 100.0 <==> Growth(ss, s, part) <= Growth(ss, s, whole)))
  {
    var p, w := RateOf(Tracked(ss), s, part).value, RateOf(Tracked(ss), s, whole).value;
    MeasuredMeansSeen(ss, s, part);
    MeasuredMeansSeen(ss, s, whole);
    ShareOrder(p, w);
    IntervalsCoincideExactlyWhen(ss, s.target, part, whole);
    if SeenTogether(ss, s.target, part, whole) {
      SameDivisor(Growth(ss, s, part), Growth(ss, s, whole),
                  Seconds(s.at - LastSeen(ss, s.target, part).value.at));
    }
  }

  // ---------------------------------------------------------------------------
  // What every derived number says of the counters
  // ---------------------------------------------------------------------------

  /** The scrape and an earlier one of the target have the counter, and neither it nor the clock went back. */
  predicate Measured(ss: seq<Scrape>, s: Scrape, c: Counter) {
    && c in s.counters && LastSeen(ss, s.target, c).Some?
    && LastSeen(ss, s.target, c).value.at < s.at
    && LastSeen(ss, s.target, c).value.value <= s.counters[c]
  }

  /** r is how much the counter grew per second; there is none when it was not measured. */
  predicate GrowsBy(ss: seq<Scrape>, s: Scrape, c: Counter, r: Option<real>) {
    && (r.Some? <==> Measured(ss, s, c))
    && (r.Some? ==>
          r.value * (s.at - LastSeen(ss, s.target, c).value.at) as real == Growth(ss, s, c) * 1_000_000_000.0)
  }

  lemma NanosOf(rate: real, nanos: int, growth: real)
    requires Times(rate, Seconds(nanos)) == growth
    ensures rate * nanos as real == growth * 1_000_000_000.0
  {
    assert nanos as real == Seconds(nanos) * 1_000_000_000.0;
    Regroup(rate, Seconds(nanos), 1_000_000_000.0);
  }

  lemma RateIsGrowth(ss: seq<Scrape>, s: Scrape, c: Counter)
    ensures GrowsBy(ss, s, c, RateOf(Tracked(ss), s, c))
  {
    TrackedIsLastSeen(ss, s.target, c);
    var prev, rate := LastSeen(ss, s.target, c), RateOf(Tracked(ss), s, c);
    if c in s.counters && prev.Some? {
      MeasuredWhen(prev.value, s.counters[c], s.at);
      if rate.Some? {
        RateTimesElapsed(prev.value, s.counters[c], s.at);
        NanosOf(rate.value, s.at - prev.value.at, Growth(ss, s, c));
      }
    }
  }

  lemma MeasuredWhen(p: Entry, current: real, now: int)
    ensures RateSince(Some(p), current, now).Some? <==> p.at < now && p.value <= current
  {
  }

  /** Which counter's growth each reported rate is. */
  lemma DerivedRatesAreGrowth(ss: seq<Scrape>, s: Scrape)
    ensures
      var d := Derive(Tracked(ss), s);
      && GrowsBy(ss, s, GenerationTokens, d.tokensPerSecond)
      && GrowsBy(ss, s, PromptTokens, d.promptTokensPerSec)
      && GrowsBy(ss, s, Preemptions, d.preemptionsPerSec)
      && GrowsBy(ss, s, RequestsFinished, d.requestRatePerSec)
  {
    RateIsGrowth(ss, s, GenerationTokens);
    RateIsGrowth(ss, s, PromptTokens);
    RateIsGrowth(ss, s, Preemptions);
    RateIsGrowth(ss, s, RequestsFinished);
  }

  predicate IsPercent(share: real, part: real, whole: real) {
    share * whole == 100.0 * part
  }

  lemma PercentOf(part: real, whole: real)
    requires whole > 0.0
    ensures IsPercent(part / whole * 100.0, part, whole)
    ensures part / whole * 100.0 == 0.0 <==> part == 0.0
    ensures part / whole * 100.0 == 100.0 <==> part == whole
  {
    var f := part / whole;
    assert f * whole == part;
    Regroup(100.0, f, whole);
  }

  lemma GrowthSign(ss: seq<Scrape>, s: Scrape, c: Counter)
    requires RateOf(Tracked(ss), s, c).Some?
    ensures Measured(ss, s, c)
    ensures RateOf(Tracked(ss), s, c).value == 0.0 <==> Growth(ss, s, c) == 0.0
    ensures RateOf(Tracked(ss), s, c).value > 0.0 <==> Growth(ss, s, c) > 0.0
  {
    RateIsGrowth(ss, s, c);
    MeasuredMeansSeen(ss, s, c);
    var r, n := RateOf(Tracked(ss), s, c).value, (s.at - LastSeen(ss, s.target, c).value.at) as real;
    TimesIsNonNegative(r, n);
    assert Times(r, n) == Growth(ss, s, c) * 1_000_000_000.0;
    assert r == 0.0 ==> Times(r, n) == 0.0;
  }

  /** Over one interval, what holds of the rates holds of the growths. */
  lemma ScaledUp(share: real, part: real, whole: real, span: real)
    requires IsPercent(share, part, whole)
    ensures IsPercent(share, Times(part, span), Times(whole, span))
  {
    Regroup(share, whole, span);
    Regroup(100.0, part, span);
  }

  lemma GrowthsOverOneInterval(ss: seq<Scrape>, s: Scrape, a: Counter, b: Counter)
    requires ClockAdvances(ss) && SeenTogether(ss, s.target, a, b)
    requires RateOf(Tracked(ss), s, a).Some? && RateOf(Tracked(ss), s, b).Some?
    ensures Measured(ss, s, a) && Measured(ss, s, b)
    ensures
      var span := Seconds(s.at - LastSeen(ss, s.target, a).value.at);
      && Growth(ss, s, a) == Times(RateOf(Tracked(ss), s, a).value, span)
      && Growth(ss, s, b) == Times(RateOf(Tracked(ss), s, b).value, span)
  {
    IntervalsCoincideExactlyWhen(ss, s.target, a, b);
    GrowthOf(ss, s, a);
    GrowthOf(ss, s, b);
  }

  lemma GrowthOf(ss: seq<Scrape>, s: Scrape, c: Counter)
    requires RateOf(Tracked(ss), s, c).Some?
    ensures Measured(ss, s, c)
    ensures Growth(ss, s, c) ==
            Times(RateOf(Tracked(ss), s, c).value, Seconds(s.at - LastSeen(ss, s.target, c).value.at))
  {
    TrackedIsLastSeen(ss, s.target, c);
    var p := LastSeen(ss, s.target, c).value;
    MeasuredWhen(p, s.counters[c], s.at);
    RateTimesElapsed(p, s.counters[c], s.at);
  }

  /** A part over a whole: when there is a share, and what it says of the two growths. */
  ghost predicate IsShare(ss: seq<Scrape>, s: Scrape, part: Counter, whole: Counter, share: Option<real>) {
    && (share.Some? <==> Measured(ss, s, part) && Measured(ss, s, whole) && Growth(ss, s, whole) > 0.0)
    && (share.Some? ==>
          && (share.value == 0.0 <==> Growth(ss, s, part) == 0.0)
          && (SeenTogether(ss, s.target, part, whole) ==>
                IsPercent(share.value, Growth(ss, s, part), Growth(ss, s, whole))))
  }

  lemma ShareOverOneInterval(ss: seq<Scrape>, s: Scrape, part: Counter, whole: Counter, share: real)
    requires ClockAdvances(ss) && SeenTogether(ss, s.target, part, whole)
    requires RateOf(Tracked(ss), s, part).Some? && RateOf(Tracked(ss), s, whole).Some?
    requires IsPercent(share, RateOf(Tracked(ss), s, part).value, RateOf(Tracked(ss), s, whole).value)
    ensures Measured(ss, s, part) && Measured(ss, s, whole)
    ensures IsPercent(share, Growth(ss, s, part), Growth(ss, s, whole))
  {
    GrowthsOverOneInterval(ss, s, part, whole);
    ScaledUp(share, RateOf(Tracked(ss), s, part).value, RateOf(Tracked(ss), s, whole).value,
             Seconds(s.at - LastSeen(ss, s.target, part).value.at));
  }

  lemma ShareIsMeasured(ss: seq<Scrape>, s: Scrape, part: Counter, whole: Counter)
    ensures
      var share := Share(RateOf(Tracked(ss), s, part), RateOf(Tracked(ss), s, whole));
      share.Some? <==> Measured(ss, s, part) && Measured(ss, s, whole) && Growth(ss, s, whole) > 0.0
  {
    RateIsGrowth(ss, s, part);
    RateIsGrowth(ss, s, whole);
    if RateOf(Tracked(ss), s, whole).Some? {
      GrowthSign(ss, s, whole);
    }
  }

  lemma ShareIsOfGrowths(ss: seq<Scrape>, s: Scrape, part: Counter, whole: Counter)
    requires ClockAdvances(ss)
    ensures IsShare(ss, s, part, whole, Share(RateOf(Tracked(ss), s, part), RateOf(Tracked(ss), s, whole)))
  {
    var p, w := RateOf(Tracked(ss), s, part), RateOf(Tracked(ss), s, whole);
    ShareIsMeasured(ss, s, part, whole);
    if Share(p, w).Some? {
      PercentOf(p.value, w.value);
      GrowthSign(ss, s, part);
      if SeenTogether(ss, s.target, part, whole) {
        ShareOverOneInterval(ss, s, part, whole, Share(p, w).value);
      }
    }
  }

  /** The abort rate is aborts over finished requests, the hit rate hits over queries. */
  lemma DerivedSharesAreOfGrowths(ss: seq<Scrape>, s: Scrape)
    requires ClockAdvances(ss)
    ensures
      var d := Derive(Tracked(ss), s);
      && IsShare(ss, s, RequestsAborted, RequestsFinished, d.abortRatePct)
      && IsShare(ss, s, PrefixCacheHits, PrefixCacheQueries, d.prefixCacheHitRatePct)
  {
    ShareIsOfGrowths(ss, s, RequestsAborted, RequestsFinished);
    ShareIsOfGrowths(ss, s, PrefixCacheHits, PrefixCacheQueries);
  }

  /**
    The error rate is failures over failures and finished requests: none exactly when
    nothing failed, all exactly when nothing finished, and over one interval the share of
    the failures in both growths.
    */
  ghost predicate IsErrorShare(ss: seq<Scrape>, s: Scrape, share: Option<real>) {
    && (share.Some? <==>
          && Measured(ss, s, RequestsFailed) && Measured(ss, s, RequestsFinished)
          && (Growth(ss, s, RequestsFailed) > 0.0 || Growth(ss, s, RequestsFinished) > 0.0))
    && (share.Some? ==>
          var failed, finished := Growth(ss, s, RequestsFailed), Growth(ss, s, RequestsFinished);
          && (share.value == 0.0 <==> failed == 0.0)
          && (share.value == 100.0 <==> finished == 0.0)
          && (SeenTogether(ss, s.target, RequestsFailed, RequestsFinished) ==>
                IsPercent(share.value, failed, failed + finished)))
  }

  lemma ErrorShareIsMeasured(ss: seq<Scrape>, s: Scrape)
    ensures Derive(Tracked(ss), s).errorRatePct.Some? <==>
      && Measured(ss, s, RequestsFailed) && Measured(ss, s, RequestsFinished)
      && (Growth(ss, s, RequestsFailed) > 0.0 || Growth(ss, s, RequestsFinished) > 0.0)
  {
    var failed, finished := RateOf(Tracked(ss), s, RequestsFailed), RateOf(Tracked(ss), s, RequestsFinished);
    RateIsGrowth(ss, s, RequestsFailed);
    RateIsGrowth(ss, s, RequestsFinished);
    if failed.Some? && finished.Some? {
      GrowthSign(ss, s, RequestsFailed);
      GrowthSign(ss, s, RequestsFinished);
    }
  }

  lemma ErrorShareOverOneInterval(ss: seq<Scrape>, s: Scrape, share: real)
    requires ClockAdvances(ss) && SeenTogether(ss, s.target, RequestsFailed, RequestsFinished)
    requires RateOf(Tracked(ss), s, RequestsFailed).Some? && RateOf(Tracked(ss), s, RequestsFinished).Some?
    requires
      var failed := RateOf(Tracked(ss), s, RequestsFailed).value;
      var finished := RateOf(Tracked(ss), s, RequestsFinished).value;
      IsPercent(share, failed, finished + failed)
    ensures Measured(ss, s, RequestsFailed) && Measured(ss, s, RequestsFinished)
    ensures IsPercent(share, Growth(ss, s, RequestsFailed),
                      Growth(ss, s, RequestsFailed) + Growth(ss, s, RequestsFinished))
  {
    var failed := RateOf(Tracked(ss), s, RequestsFailed).value;
    var finished := RateOf(Tracked(ss), s, RequestsFinished).value;
    GrowthsOverOneInterval(ss, s, RequestsFailed, RequestsFinished);
    var span := Seconds(s.at - LastSeen(ss, s.target, RequestsFailed).value.at);
    ScaledUp(share, failed, finished + failed, span);
    TimesDistributes(span, finished, failed);
  }

  lemma ErrorRateIsOfGrowths(ss: seq<Scrape>, s: Scrape)
    requires ClockAdvances(ss)
    ensures IsErrorShare(ss, s, Derive(Tracked(ss), s).errorRatePct)
  {
    var failed, finished := RateOf(Tracked(ss), s, RequestsFailed), RateOf(Tracked(ss), s, RequestsFinished);
    ErrorShareIsMeasured(ss, s);
    if ErrorShare(failed, finished).Some? {
      PercentOf(failed.value, finished.value + failed.value);
      GrowthSign(ss, s, RequestsFailed);
      GrowthSign(ss, s, RequestsFinished);
      if SeenTogether(ss, s.target, RequestsFailed, RequestsFinished) {
        ErrorShareOverOneInterval(ss, s, ErrorShare(failed, finished).value);
      }
    }
  }

  /** Every derived number, said of the counters of the run. */
  ghost predicate IsDerived(ss: seq<Scrape>, s: Scrape, d: Derived) {
    && GrowsBy(ss, s, GenerationTokens, d.tokensPerSecond)
    && GrowsBy(ss, s, PromptTokens, d.promptTokensPerSec)
    && GrowsBy(ss, s, Preemptions, d.preemptionsPerSec)
    && GrowsBy(ss, s, RequestsFinished, d.requestRatePerSec)
    && (ClockAdvances(ss) ==>
          && IsErrorShare(ss, s, d.errorRatePct)
          && IsShare(ss, s, RequestsAborted, RequestsFinished, d.abortRatePct)
          && IsShare(ss, s, PrefixCacheHits, PrefixCacheQueries, d.prefixCacheHitRatePct))
  }

  lemma DerivedIs(ss: seq<Scrape>, s: Scrape)
    ensures IsDerived(ss, s, Derive(Tracked(ss), s))
  {
    DerivedRatesAreGrowth(ss, s);
    if ClockAdvances(ss) {
      ErrorRateIsOfGrowths(ss, s);
      DerivedSharesAreOfGrowths(ss, s);
    }
  }

  /** More failures against the same completions are a strictly higher error rate. */
  lemma ErrorRateRises(f1: real, f2: real, finished: real)
    requires 0.0 <= f1 < f2 && finished > 0.0
    ensures ErrorShare(Some(f1), Some(finished)).Some? && ErrorShare(Some(f2), Some(finished)).Some?
    ensures ErrorShare(Some(f1), Some(finished)).value < ErrorShare(Some(f2), Some(finished)).value
  {
    var s1, s2 := f1 / (finished + f1), f2 / (finished + f2);
    assert s1 * (finished + f1) == f1 && s2 * (finished + f2) == f2;
    RisingShare(s1, s2, f1, f2, finished);
  }

  lemma RisingShare(s1: real, s2: real, f1: real, f2: real, n: real)
    requires 0.0 <= f1 < f2 && n > 0.0 && s1 * (n + f1) == f1 && s2 * (n + f2) == f2
    ensures s1 < s2
  {
    var r1, r2 := 1.0 - s1, 1.0 - s2;
    RestOfShare(s1, f1, n);
    RestOfShare(s2, f2, n);
    TimesOrder(r2, n + f1, n + f2);
    if r1 <= r2 {
      TimesOrder(n + f1, r1, r2);
    }
  }

  /** One minus the share is what finished over everything. */
  lemma RestOfShare(share: real, failed: real, n: real)
    requires failed >= 0.0 && n > 0.0 && share * (n + failed) == failed
    ensures Times(1.0 - share, n + failed) == n && Times(n + failed, 1.0 - share) == n
    ensures 1.0 - share > 0.0
  {
    var rest := 1.0 - share;
    assert Times(rest, n + failed) == n;
    if rest <= 0.0 {
      TimesOrder(n + failed, rest, 0.0);
    }
  }

  /** The error share is a percentage whatever the two intervals are. */
  lemma ErrorRateIsPercentage(ss: seq<Scrape>, s: Scrape)
    ensures
      var share := Derive(Tracked(ss), s).errorRatePct;
      share.Some? ==> 0.0 <= share.value <= 100.0
  {
    var e, f, n := Tracked(ss), RequestsFailed, RequestsFinished;
    if f in s.counters && n in s.counters {
      ErrorShareIsPercentage(Lookup(e, CounterKey(s.target, f)), s.counters[f],
                             Lookup(e, CounterKey(s.target, n)), s.counters[n], s.at);
    }
  }

  /** The engine finishes 10, 100 and 101 requests, of which 1, none known and 20 were aborted. */
  function GapScrapes(target: string): seq<Scrape> {
    [Scrape(target, map[RequestsFinished := 10.0, RequestsAborted := 1.0], 0),
     Scrape(target, map[RequestsFinished := 100.0], NANOS_PER_SECOND),
     Scrape(target, map[RequestsFinished := 101.0, RequestsAborted := 20.0], 2 * NANOS_PER_SECOND)]
  }

  /**
    When one scrape lacks the aborts, the next divides aborts of two seconds by requests of
    one: 19 of 91 requests were aborted, and 950 percent are reported.
    */
  lemma GapInflatesAbortShare(target: string)
    ensures ClockAdvances(GapScrapes(target))
    ensures !SeenTogether(GapScrapes(target)[..2], target, RequestsAborted, RequestsFinished)
    ensures Derive(Tracked(GapScrapes(target)[..2]), GapScrapes(target)[2]).abortRatePct == Some(950.0)
  {
    var ss, s := GapScrapes(target)[..2], GapScrapes(target)[2];
    assert ss[..1][..0] == [] && ss[..1][0] == GapScrapes(target)[0];
    TrackedIsLastSeen(ss, target, RequestsAborted);
    TrackedIsLastSeen(ss, target, RequestsFinished);
    assert LastSeen(ss[..1], target, RequestsAborted) == Some(Entry(1.0, 0));
    assert LastSeen(ss, target, RequestsAborted) == Some(Entry(1.0, 0));
    assert LastSeen(ss, target, RequestsFinished) == Some(Entry(100.0, NANOS_PER_SECOND));
    assert RateOf(Tracked(ss), s, RequestsAborted) == Some(9.5);
    assert RateOf(Tracked(ss), s, RequestsFinished) == Some(1.0);
  }
}
