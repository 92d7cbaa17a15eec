/** The in-memory telemetry store of internal/telemetry/store.go. */
module TelemetryStore {
  import opened Telemetry
  import opened Sorting
  import opened Seqs
  import opened KeyOrder

  type Series = seq<Snapshot>
  type Data = map<string, Series>

  predicate TimeOrdered(series: Series) {
    forall i, j :: 0 <= i <= j < |series| ==> series[i].timestamp <= series[j].timestamp
  }

  /** Retention: how many samples per workload, and how old they may be. */
  datatype Retention = Retention(maxPerWorkload: nat, maxAge: nat)

  function DropOld(series: Series, cutoff: int): Series {
    if series != [] && series[0].timestamp < cutoff then DropOld(series[1..], cutoff) else series
  }

  function KeepLast(series: Series, n: nat): Series {
    if |series| > n then series[|series| - n..] else series
  }

  function Retained(series: Series, cutoff: int, n: nat): Series {
    KeepLast(DropOld(series, cutoff), n)
  }

  /** The operations on the store, each with the clock reading it takes. */
  datatype Op = Add(snap: Snapshot, now: int) | Prune(now: int)

  function SeriesOf(data: Data, key: string): Series {
    if key in data then data[key] else []
  }

  predicate Stale(series: Series, cutoff: int) {
    series == [] || series[|series| - 1].timestamp < cutoff
  }

  function Apply(data: Data, op: Op, r: Retention): Data {
    match op
    case Add(snap, now) =>
      data[snap.Key() := Retained(SeriesOf(data, snap.Key()) + [snap], now - r.maxAge, r.maxPerWorkload)]
    case Prune(now) => WithoutStale(data, now - r.maxAge)
  }

  function WithoutStale(data: Data, cutoff: int): Data {
    map k | k in data && !Stale(data[k], cutoff) :: data[k]
  }

  function Run(ops: seq<Op>, r: Retention): Data {
    if ops == [] then map[] else Apply(Run(ops[..|ops| - 1], r), ops[|ops| - 1], r)
  }

  class Store {
    var data: Data
    const retention: Retention
    ghost var ops: seq<Op>

    /** The store holds what the operations so far make of an empty one. */
    ghost predicate Valid()
      reads this
    {
      data == Run(ops, retention)
    }

    constructor (retention: Retention)
      ensures Valid() && ops == [] && this.retention == retention
    {
      data, ops := map[], [];
      this.retention := retention;
    }

    /** Records a snapshot, then trims its series by age and by count. */
    method Add(snap: Snapshot, now: int)
      requires Valid()
      modifies this
      ensures Valid() && ops == old(ops) + [Op.Add(snap, now)]
      ensures data == Apply(old(data), Op.Add(snap, now), retention)
    {
      var key := snap.Key();
      var series := Trim(SeriesOf(data, key) + [snap], now - retention.maxAge, retention.maxPerWorkload);
      data := data[key := series];
      RunNext(ops, Op.Add(snap, now), retention);
      ops := ops + [Op.Add(snap, now)];
    }

    static method Trim(all: Series, cutoff: int, maxPerWorkload: nat) returns (series: Series)
      ensures series == Retained(all, cutoff, maxPerWorkload)
    {
      series := DropAged(all, cutoff);
      if |series| > maxPerWorkload {
        series := series[|series| - maxPerWorkload..];
      }
    }

    static method DropAged(all: Series, cutoff: int) returns (series: Series)
      ensures series == DropOld(all, cutoff)
    {
      var drop := 0;
      while drop < |all| && all[drop].timestamp < cutoff
        invariant 0 <= drop <= |all|
        invariant DropOld(all[drop..], cutoff) == DropOld(all, cutoff)
      {
        DropOldStep(all, drop, cutoff);
        drop := drop + 1;
      }
      return all[drop..];
    }

    /** Forgets the workloads whose newest sample is too old. */
    method Prune(now: int) returns (removed: nat)
      requires Valid()
      modifies this
      ensures Valid() && ops == old(ops) + [Op.Prune(now)]
      ensures data == Apply(old(data), Op.Prune(now), retention)
      ensures removed == |old(data)| - |data|
    {
      RunNext(ops, Op.Prune(now), retention);
      var left;
      left, removed := DeleteStale(data, now - retention.maxAge);
      data := left;
      ops := ops + [Op.Prune(now)];
    }

    /** Walks the map in some order, deleting from it. */
    static method DeleteStale(all: Data, cutoff: int) returns (data: Data, removed: nat)
      ensures data == WithoutStale(all, cutoff)
      ensures removed == |all| - |data|
    {
      data, removed := all, 0;
      var todo := data.Keys;
      while todo != {}
        invariant todo <= data.Keys <= all.Keys
        invariant forall k :: k in data ==> data[k] == all[k]
        invariant forall k :: k in all && k !in todo ==> (k in data <==> !Stale(all[k], cutoff))
        invariant removed + |data| == |all|
        decreases |todo|
      {
        var k :| k in todo;
        if Stale(data[k], cutoff) {
          OneLess(data, k);
          data := data - {k};
          removed := removed + 1;
        }
        todo := todo - {k};
      }
    }

    /** The newest snapshot of every workload that has one, in key order. */
    method Latest() returns (out: seq<Snapshot>)
      requires Valid()
      ensures SortedBy(KeyLess, out) && DistinctKeys(out)
      ensures forall s :: s in out <==> IsNewest(data, s)
    {
      RunIsKeyed(ops, retention);
      var newest := Newest(data);
      out := SortByKey(newest);
      SameMembers(out, newest);
    }

    /** Walks the map in some order. */
    static method Newest(data: Data) returns (out: seq<Snapshot>)
      requires Keyed(data)
      ensures DistinctKeys(out) && forall s :: s in out <==> IsNewest(data, s)
    {
      out := [];
      var todo := data.Keys;
      while todo != {}
        invariant todo <= data.Keys && DistinctKeys(out)
        invariant forall s :: s in out <==> IsNewest(data, s) && s.Key() !in todo
        decreases |todo|
      {
        var k :| k in todo;
        todo := todo - {k};
        if data[k] != [] {
          NewestNext(data, out, k, todo);
          out := out + [data[k][|data[k]| - 1]];
        }
      }
    }

    /** Every retained snapshot of one workload, oldest first. */
    function History(): (h: string -> Series)
      reads this
      ensures forall key :: h(key) == SeriesOf(data, key)
    {
      var d := data;
      key => SeriesOf(d, key)
    }
  }

  lemma DropOldStep(series: Series, i: nat, cutoff: int)
    requires i < |series| && series[i].timestamp < cutoff
    ensures DropOld(series[i..], cutoff) == DropOld(series[i + 1..], cutoff)
  {
    DropDrop(series, i, 1);
  }

  lemma OneLess(data: Data, k: string)
    requires k in data
    ensures (data - {k}).Keys == data.Keys - {k} && |data - {k}| == |data| - 1
  {
    assert (data - {k}).Keys == data.Keys - {k};
    assert |data.Keys - {k}| == |data.Keys| - 1;
  }

  predicate IsNewest(data: Data, s: Snapshot) {
    var series := SeriesOf(data, s.Key());
    series != [] && s == series[|series| - 1]
  }

  /** Every snapshot is kept under its own key. */
  predicate Keyed(data: Data) {
    forall k, i :: k in data && 0 <= i < |data[k]| ==> data[k][i].Key() == k
  }

  lemma NewestNext(data: Data, out: seq<Snapshot>, k: string, todo: set<string>)
    requires Keyed(data) && k in data && data[k] != [] && k !in todo && DistinctKeys(out)
    requires forall s :: s in out <==> IsNewest(data, s) && s.Key() !in todo + {k}
    ensures
      var s := data[k][|data[k]| - 1];
      && DistinctKeys(out + [s])
      && forall x :: x in out + [s] <==> IsNewest(data, x) && x.Key() !in todo
  {
    var s := data[k][|data[k]| - 1];
    assert s.Key() == k;
    forall i | 0 <= i < |out|
      ensures out[i].Key() != k
    {
      assert out[i] in out;
    }
  }

  lemma RunNext(ops: seq<Op>, op: Op, r: Retention)
    ensures Run(ops + [op], r) == Apply(Run(ops, r), op, r)
  {
    assert (ops + [op])[..|ops|] == ops;
  }

  lemma {:induction false} RunIsKeyed(ops: seq<Op>, r: Retention)
    ensures Keyed(Run(ops, r))
  {
    if ops != [] {
      RunIsKeyed(ops[..|ops| - 1], r);
      ApplyKeepsKeyed(Run(ops[..|ops| - 1], r), ops[|ops| - 1], r);
    }
  }

  lemma ApplyKeepsKeyed(data: Data, op: Op, r: Retention)
    requires Keyed(data)
    ensures Keyed(Apply(data, op, r))
  {
    if op.Add? {
      var series := SeriesOf(data, op.snap.Key()) + [op.snap];
      RetainedAreMembers(series, op.now - r.maxAge, r.maxPerWorkload);
      assert forall s :: s in series ==> s.Key() == op.snap.Key();
    }
  }

  lemma {:induction false} RetainedAreMembers(series: Series, cutoff: int, n: nat)
    ensures forall s :: s in Retained(series, cutoff, n) ==> s in series
  {
    if series != [] && series[0].timestamp < cutoff {
      RetainedAreMembers(series[1..], cutoff, n);
      assert Retained(series, cutoff, n) == Retained(series[1..], cutoff, n);
      assert forall s :: s in series[1..] ==> s in series;
    }
  }

  // ---------------------------------------------------------------------------
  // Retention is a window of the full history
  // ---------------------------------------------------------------------------

  /** Everything ever added for a workload. */
  function FullHistory(ops: seq<Op>, key: string): Series {
    if ops == [] then []
    else
      var last := ops[|ops| - 1];
      FullHistory(ops[..|ops| - 1], key) +
      if last.Add? && last.snap.Key() == key then [last.snap] else []
  }

  /** The age cutoff of the last Add for a workload. */
  function LastCutoff(ops: seq<Op>, key: string, r: Retention): int {
    if ops == [] then 0
    else
      var last := ops[|ops| - 1];
      if last.Add? && last.snap.Key() == key then last.now - r.maxAge
      else LastCutoff(ops[..|ops| - 1], key, r)
  }

  /** The age cutoff of the last operation of any kind. */
  function Horizon(ops: seq<Op>, r: Retention): int
    requires ops != []
  {
    ops[|ops| - 1].now - r.maxAge
  }

  /** The clock does not go back, and each workload reports in time order. */
  ghost predicate WellTimed(ops: seq<Op>) {
    && (forall i, j :: 0 <= i <= j < |ops| ==> ops[i].now <= ops[j].now)
    && forall key: string :: TimeOrdered(FullHistory(ops, key))
  }

  predicate IsSuffix(kept: Series, full: Series) {
    |kept| <= |full| && kept == full[|full| - |kept|..]
  }

  /** A suffix within both bounds that cannot be made one sample longer. */
  predicate IsWindow(full: Series, kept: Series, cutoff: int, n: nat) {
    && IsSuffix(kept, full)
    && |kept| <= n
    && (forall i :: 0 <= i < |kept| ==> kept[i].timestamp >= cutoff)
    && (|kept| < |full| ==> |kept| == n || full[|full| - |kept| - 1].timestamp < cutoff)
  }

  /** Such a suffix is the longest one there is. */
  lemma WindowIsLongest(full: Series, kept: Series, cutoff: int, n: nat, other: Series)
    requires TimeOrdered(full) && IsWindow(full, kept, cutoff, n)
    requires IsSuffix(other, full) && |other| <= n
    requires forall i :: 0 <= i < |other| ==> other[i].timestamp >= cutoff
    ensures |other| <= |kept|
  {
  }

  lemma {:induction false} DropOldDrops(series: Series, cutoff: int)
    ensures IsSuffix(DropOld(series, cutoff), series)
    ensures DropOld(series, cutoff) != [] ==> DropOld(series, cutoff)[0].timestamp >= cutoff
    ensures forall i :: 0 <= i < |series| - |DropOld(series, cutoff)| ==> series[i].timestamp < cutoff
  {
    if series != [] && series[0].timestamp < cutoff {
      DropOldDrops(series[1..], cutoff);
      var n := |series| - |DropOld(series, cutoff)|;
      forall i | 0 <= i < n
        ensures series[i].timestamp < cutoff
      {
        if i > 0 {
          assert series[i] == series[1..][i - 1];
        }
      }
    }
  }

  lemma KeepLastKeepsSuffix(series: Series, n: nat)
    ensures IsSuffix(KeepLast(series, n), series)
    ensures |KeepLast(series, n)| == if |series| > n then n else |series|
  {
  }

  lemma SuffixIndex(kept: Series, full: Series)
    requires IsSuffix(kept, full)
    ensures forall i :: 0 <= i < |kept| ==> kept[i] == full[|full| - |kept| + i]
  {
  }

  lemma RetainedIsWindow(series: Series, cutoff: int, n: nat)
    requires TimeOrdered(series)
    ensures IsWindow(series, Retained(series, cutoff, n), cutoff, n)
  {
    var recent := DropOld(series, cutoff);
    var kept := KeepLast(recent, n);
    DropOldDrops(series, cutoff);
    KeepLastKeepsSuffix(recent, n);
    SuffixOfSuffix(series, recent, kept);
    SuffixIndex(recent, series);
    SuffixIndex(kept, series);
  }

  /** A window of a suffix is one of the whole if it could not have been extended beyond the suffix. */
  lemma WindowOfSuffix(all: Series, longer: Series, kept: Series, cutoff: int, n: nat)
    requires IsSuffix(longer, all) && IsWindow(longer, kept, cutoff, n)
    requires |longer| < n && |longer| < |all| ==> all[|all| - |longer| - 1].timestamp < cutoff
    ensures IsWindow(all, kept, cutoff, n)
  {
    SuffixOfSuffix(all, longer, kept);
    SuffixIndex(longer, all);
  }

  lemma SuffixAppend(kept: Series, full: Series, snap: Snapshot)
    requires IsSuffix(kept, full)
    ensures IsSuffix(kept + [snap], full + [snap])
  {
  }

  lemma SuffixIsOrdered(kept: Series, full: Series)
    requires IsSuffix(kept, full) && TimeOrdered(full)
    ensures TimeOrdered(kept)
  {
    SuffixIndex(kept, full);
  }

  /** Trimming what was already trimmed is trimming the whole. */
  lemma WindowOfWindow(full: Series, kept: Series, snap: Snapshot, before: int, cutoff: int, n: nat)
    requires TimeOrdered(full + [snap]) && IsWindow(full, kept, before, n) && before <= cutoff
    ensures IsWindow(full + [snap], Retained(kept + [snap], cutoff, n), cutoff, n)
  {
    var longer, all := kept + [snap], full + [snap];
    SuffixAppend(kept, full, snap);
    SuffixIsOrdered(longer, all);
    RetainedIsWindow(longer, cutoff, n);
    if |kept| < |full| {
      assert all[|all| - |longer| - 1] == full[|full| - |kept| - 1];
    }
    WindowOfSuffix(all, longer, Retained(longer, cutoff, n), cutoff, n);
  }

  lemma SuffixOfSuffix(a: Series, b: Series, c: Series)
    requires IsSuffix(b, a) && IsSuffix(c, b)
    ensures IsSuffix(c, a)
  {
  }

  /** When everything before it is too old, a series starts afresh. */
  lemma WindowAfterGap(full: Series, own: Series, kept: Series, cutoff: int, n: nat)
    requires forall i :: 0 <= i < |full| ==> full[i].timestamp < cutoff
    requires IsWindow(own, kept, cutoff, n)
    ensures IsWindow(full + own, kept, cutoff, n)
  {
    SuffixOfConcat(full, own);
    WindowOfSuffix(full + own, own, kept, cutoff, n);
  }

  lemma WellTimedPrefix(ops: seq<Op>)
    requires WellTimed(ops) && ops != []
    ensures WellTimed(ops[..|ops| - 1])
  {
    var init := ops[..|ops| - 1];
    forall key: string
      ensures TimeOrdered(FullHistory(init, key))
    {
      var all := FullHistory(ops, key);
      assert TimeOrdered(all);
      assert forall i :: 0 <= i < |FullHistory(init, key)| ==> FullHistory(init, key)[i] == all[i];
    }
  }

  /** What the store holds for a workload, against its full history. */
  ghost predicate Faithful(full: Series, data: Data, key: string, last: int, horizon: int, n: nat) {
    if key in data then full != [] && last <= horizon && IsWindow(full, data[key], last, n)
    else forall i :: 0 <= i < |full| ==> full[i].timestamp < horizon
  }

  lemma AddKeepsWindow(full: Series, data: Data, key: string, last: int, horizon: int, n: nat,
                       snap: Snapshot, cutoff: int)
    requires Faithful(full, data, key, last, horizon, n)
    requires TimeOrdered(full + [snap]) && horizon <= cutoff
    ensures IsWindow(full + [snap], Retained(SeriesOf(data, key) + [snap], cutoff, n), cutoff, n)
  {
    if key in data {
      WindowOfWindow(full, data[key], snap, last, cutoff, n);
    } else {
      var own := SeriesOf(data, key) + [snap];
      assert own == [snap];
      RetainedIsWindow(own, cutoff, n);
      WindowAfterGap(full, own, Retained(own, cutoff, n), cutoff, n);
    }
  }

  lemma AddIsFaithful(full: Series, data: Data, key: string, last: int, horizon: int, r: Retention,
                      snap: Snapshot, now: int)
    requires key == snap.Key() && Faithful(full, data, key, last, horizon, r.maxPerWorkload)
    requires TimeOrdered(full + [snap]) && horizon <= now - r.maxAge
    ensures Faithful(full + [snap], Apply(data, Op.Add(snap, now), r), key,
                     now - r.maxAge, now - r.maxAge, r.maxPerWorkload)
  {
    AddKeepsWindow(full, data, key, last, horizon, r.maxPerWorkload, snap, now - r.maxAge);
    var kept := Retained(SeriesOf(data, key) + [snap], now - r.maxAge, r.maxPerWorkload);
    assert Apply(data, Op.Add(snap, now), r) == data[key := kept];
    assert full + [snap] != [];
  }

  lemma OpIsFaithful(full: Series, data: Data, key: string, last: int, horizon: int, r: Retention, op: Op)
    requires Faithful(full, data, key, last, horizon, r.maxPerWorkload) && r.maxPerWorkload > 0
    requires TimeOrdered(full) && horizon <= op.now - r.maxAge
    requires !(op.Add? && op.snap.Key() == key)
    ensures Faithful(full, Apply(data, op, r), key, last, op.now - r.maxAge, r.maxPerWorkload)
  {
  }

  /**
    After any well-timed run of Add and Prune, a workload the store knows holds exactly
    the window of its full history that its last Add called for, and a workload it does
    not know has nothing left that is recent enough to keep.
    */
  lemma {:induction false} StoreHoldsTheWindow(ops: seq<Op>, r: Retention, key: string)
    requires ops != [] && WellTimed(ops) && r.maxPerWorkload > 0
    ensures Faithful(FullHistory(ops, key), Run(ops, r), key, LastCutoff(ops, key, r), Horizon(ops, r),
                     r.maxPerWorkload)
    decreases |ops|
  {
    var init, op := ops[..|ops| - 1], ops[|ops| - 1];
    var full, data, last := FullHistory(init, key), Run(init, r), LastCutoff(init, key, r);
    var horizon := Horizon(ops, r);
    WellTimedPrefix(ops);
    assert TimeOrdered(full) && TimeOrdered(FullHistory(ops, key));
    if init != [] {
      StoreHoldsTheWindow(init, r, key);
      horizon := Horizon(init, r);
      assert ops[|ops| - 2].now <= op.now;
    }
    HistoryUnfolds(ops, key, r);
    if op.Add? && op.snap.Key() == key {
      AddIsFaithful(full, data, key, last, horizon, r, op.snap, op.now);
    } else {
      OpIsFaithful(full, data, key, last, horizon, r, op);
    }
  }

  lemma HistoryUnfolds(ops: seq<Op>, key: string, r: Retention)
    requires ops != []
    ensures
      var init, op := ops[..|ops| - 1], ops[|ops| - 1];
      && Run(ops, r) == Apply(Run(init, r), op, r)
      && (op.Add? && op.snap.Key() == key ==>
            FullHistory(ops, key) == FullHistory(init, key) + [op.snap] &&
            LastCutoff(ops, key, r) == op.now - r.maxAge)
      && (!(op.Add? && op.snap.Key() == key) ==>
            FullHistory(ops, key) == FullHistory(init, key) &&
            LastCutoff(ops, key, r) == LastCutoff(init, key, r))
  {
  }

  lemma AddSets(data: Data, snap: Snapshot, now: int, r: Retention)
    ensures
      var key := snap.Key();
      Apply(data, Op.Add(snap, now), r)[key] == Retained(SeriesOf(data, key) + [snap], now - r.maxAge, r.maxPerWorkload)
  {
  }

  /** Pruning leaves exactly the series whose newest sample is no older than the cutoff, as they were. */
  lemma PruneLeavesTheFresh(data: Data, now: int, r: Retention, key: string)
    ensures
      var left := Apply(data, Op.Prune(now), r);
      && (key in left <==>
            key in data && data[key] != [] && data[key][|data[key]| - 1].timestamp + r.maxAge >= now)
      && (key in left ==> left[key] == data[key])
  {
  }

  /** In a well-timed run the newest snapshot of a workload is the last one ever added for it. */
  lemma NewestIsLastAdded(ops: seq<Op>, r: Retention, s: Snapshot)
    requires ops != [] && WellTimed(ops) && r.maxPerWorkload > 0 && IsNewest(Run(ops, r), s)
    ensures
      var all := FullHistory(ops, s.Key());
      all != [] && s == all[|all| - 1] && forall i :: 0 <= i < |all| ==> all[i].timestamp <= s.timestamp
  {
    StoreHoldsTheWindow(ops, r, s.Key());
    assert TimeOrdered(FullHistory(ops, s.Key()));
    LastOfSuffix(Run(ops, r)[s.Key()], FullHistory(ops, s.Key()));
  }

  lemma LastOfSuffix(kept: Series, all: Series)
    requires IsSuffix(kept, all) && kept != []
    ensures all != [] && kept[|kept| - 1] == all[|all| - 1]
  {
    SuffixIndex(kept, all);
  }

  /** Pruning removes nothing that the next Add would have kept. */
  lemma PruneIsInvisibleToAdd(data: Data, snap: Snapshot, pruned: int, now: int, r: Retention)
    requires TimeOrdered(SeriesOf(data, snap.Key()) + [snap]) && pruned <= now
    ensures
      var key := snap.Key();
      Apply(Apply(data, Op.Prune(pruned), r), Op.Add(snap, now), r)[key] == Apply(data, Op.Add(snap, now), r)[key]
  {
    var key := snap.Key();
    AddSets(data, snap, now, r);
    AddSets(Apply(data, Op.Prune(pruned), r), snap, now, r);
    if SeriesOf(Apply(data, Op.Prune(pruned), r), key) != SeriesOf(data, key) {
      PrunedIsStale(data, key, pruned - r.maxAge);
      StaleIsDropped(SeriesOf(data, key), snap, pruned - r.maxAge, now - r.maxAge, r.maxPerWorkload);
    }
  }

  lemma PrunedIsStale(data: Data, key: string, cutoff: int)
    requires SeriesOf(WithoutStale(data, cutoff), key) != SeriesOf(data, key)
    ensures SeriesOf(WithoutStale(data, cutoff), key) == [] && SeriesOf(data, key) != []
    ensures Stale(SeriesOf(data, key), cutoff)
  {
  }

  lemma StaleIsDropped(series: Series, snap: Snapshot, stale: int, cutoff: int, n: nat)
    requires TimeOrdered(series + [snap]) && stale <= cutoff && series != [] && Stale(series, stale)
    ensures Retained(series + [snap], cutoff, n) == Retained([] + [snap], cutoff, n)
  {
    assert forall i :: 0 <= i < |series| ==> (series + [snap])[i] == series[i];
    DropAllOld(series, snap, cutoff);
    assert [] + [snap] == [snap];
  }

  lemma {:induction false} DropAllOld(series: Series, snap: Snapshot, cutoff: int)
    requires forall i :: 0 <= i < |series| ==> series[i].timestamp < cutoff
    ensures DropOld(series + [snap], cutoff) == DropOld([snap], cutoff)
  {
    if series == [] {
      assert [] + [snap] == [snap];
    } else {
      assert (series + [snap])[1..] == series[1..] + [snap];
      DropAllOld(series[1..], snap, cutoff);
    }
  }
}
