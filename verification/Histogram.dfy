/** The histogram of internal/demo/server.go: what it records, and what it prints. */
module Histogram {
  import opened PromText
  import opened Sorting
  import opened Exposition

  predicate IncreasingBounds(bounds: seq<real>) {
    forall i, j :: 0 <= i < j < |bounds| ==> bounds[i] < bounds[j]
  }

  function AtLeast(bounds: seq<real>, v: real): nat -> bool {
    (i: nat) => i < |bounds| && bounds[i] >= v
  }

  /** sort.SearchFloat64s: the bucket of v, which is |bounds| for the open-ended one. */
  function BucketOf(bounds: seq<real>, v: real): (i: nat)
    ensures i <= |bounds|
  {
    Search(|bounds|, AtLeast(bounds, v))
  }

  lemma BucketOfIsFirst(bounds: seq<real>, v: real)
    requires IncreasingBounds(bounds)
    ensures forall i :: 0 <= i < |bounds| ==> (v <= bounds[i] <==> BucketOf(bounds, v) <= i)
  {
  }

  // ---------------------------------------------------------------------------
  // Counting observations
  // ---------------------------------------------------------------------------

  function CountLe(obs: seq<real>, x: real): nat {
    if obs == [] then 0 else CountLe(obs[..|obs| - 1], x) + if obs[|obs| - 1] <= x then 1 else 0
  }

  function Total(obs: seq<real>): real {
    if obs == [] then 0.0 else Total(obs[..|obs| - 1]) + obs[|obs| - 1]
  }

  function CountLt(obs: seq<real>, x: real): nat {
    if obs == [] then 0 else CountLt(obs[..|obs| - 1], x) + if obs[|obs| - 1] < x then 1 else 0
  }

  function CountIn(obs: seq<real>, bounds: seq<real>, i: nat): nat {
    if obs == [] then 0
    else CountIn(obs[..|obs| - 1], bounds, i) + if BucketOf(bounds, obs[|obs| - 1]) == i then 1 else 0
  }

  lemma {:induction false} CountsAreOrdered(obs: seq<real>, x: real, y: real)
    ensures CountLt(obs, x) <= CountLe(obs, x) <= |obs|
    ensures x <= y ==> CountLe(obs, x) <= CountLe(obs, y)
    ensures x < y ==> CountLe(obs, x) <= CountLt(obs, y)
  {
    if obs != [] {
      CountsAreOrdered(obs[..|obs| - 1], x, y);
    }
  }

  lemma {:induction false} CountLeConcat(a: seq<real>, b: seq<real>, x: real)
    ensures CountLe(a + b, x) == CountLe(a, x) + CountLe(b, x)
  {
    if b == [] {
      assert a + b == a;
    } else {
      assert (a + b)[..|a + b| - 1] == a + b[..|b| - 1];
      CountLeConcat(a, b[..|b| - 1], x);
    }
  }

  /** The running total over buckets counts the observations at or below the boundary. */
  function CountUpTo(obs: seq<real>, bounds: seq<real>, n: nat): nat {
    if n == 0 then 0 else CountUpTo(obs, bounds, n - 1) + CountIn(obs, bounds, n - 1)
  }

  lemma {:induction false} CountUpToAppend(obs: seq<real>, bounds: seq<real>, n: nat)
    requires obs != []
    ensures CountUpTo(obs, bounds, n) ==
            CountUpTo(obs[..|obs| - 1], bounds, n) + if BucketOf(bounds, obs[|obs| - 1]) < n then 1 else 0
  {
    if n > 0 {
      CountUpToAppend(obs, bounds, n - 1);
    }
  }

  lemma {:induction false} CountUpToNothing(bounds: seq<real>, n: nat)
    ensures CountUpTo([], bounds, n) == 0
  {
    if n > 0 {
      CountUpToNothing(bounds, n - 1);
    }
  }

  lemma {:induction false} RunningTotalIsCountLe(obs: seq<real>, bounds: seq<real>, i: nat)
    requires IncreasingBounds(bounds) && i <= |bounds|
    ensures CountUpTo(obs, bounds, i + 1) == if i < |bounds| then CountLe(obs, bounds[i]) else |obs|
  {
    if obs == [] {
      CountUpToNothing(bounds, i + 1);
    } else {
      RunningTotalIsCountLe(obs[..|obs| - 1], bounds, i);
      CountUpToAppend(obs, bounds, i + 1);
      BucketOfIsFirst(bounds, obs[|obs| - 1]);
    }
  }

  // ---------------------------------------------------------------------------
  // Recording and printing
  // ---------------------------------------------------------------------------

  /** How numbers are printed: boundaries, counts and sums. */
  datatype Format = Format(le: real -> string, count: nat -> string, sum: real -> string)

  function LeText(format: Format, bounds: seq<real>, i: nat): string {
    if i < |bounds| then format.le(bounds[i]) else "+Inf"
  }

  /** The count the i-th bucket line must carry. */
  function CumulativeCount(bounds: seq<real>, obs: seq<real>, i: nat): nat {
    if i < |bounds| then CountLe(obs, bounds[i]) else |obs|
  }

  function BucketEntry(format: Format, bounds: seq<real>, obs: seq<real>,
                       name: string, labels: seq<(string, string)>, i: nat): Entry
  {
    Labelled(name + "_bucket", labels + [("le", LeText(format, bounds, i))],
             format.count(CumulativeCount(bounds, obs, i)))
  }

  function BucketEntries(format: Format, bounds: seq<real>, obs: seq<real>,
                         name: string, labels: seq<(string, string)>): seq<Entry>
  {
    seq(|bounds| + 1, i requires i >= 0 => BucketEntry(format, bounds, obs, name, labels, i))
  }

  /** One series of a histogram family: its labels, what it observed, and its sum. */
  datatype Recorded = Recorded(labels: seq<(string, string)>, obs: seq<real>, sum: real)

  /** The lines one series is printed as. */
  function Rendered(format: Format, bounds: seq<real>, r: Recorded, name: string): seq<Entry> {
    [Comment("TYPE " + name + " histogram")] +
    BucketEntries(format, bounds, r.obs, name, r.labels) +
    CountAndSum(format, r, name)
  }

  function CountAndSum(format: Format, r: Recorded, name: string): seq<Entry> {
    [Labelled(name + "_count", r.labels, format.count(|r.obs|)),
     Labelled(name + "_sum", r.labels, format.sum(r.sum))]
  }

  class Histogram {
    const bounds: seq<real>
    const counts: array<nat>
    var sum: real
    var count: nat
    ghost var obs: seq<real>

    /** Each bucket counts its own observations; the printed form is cumulative. */
    ghost predicate Valid()
      reads this, counts
    {
      && counts.Length == |bounds| + 1
      && (forall i :: 0 <= i < counts.Length ==> counts[i] == CountIn(obs, bounds, i))
      && count == |obs| && sum == Total(obs)
      && forall i :: 0 <= i < |obs| ==> obs[i] >= 0.0
    }

    constructor (bounds: seq<real>)
      ensures Valid() && this.bounds == bounds && obs == [] && fresh(counts)
    {
      this.bounds := bounds;
      counts := new nat[|bounds| + 1](_ => 0);
      sum, count, obs := 0.0, 0, [];
    }

    /** Records a number and adds it to the sum; NaN and negative values, -Inf among them, are ignored. */
    method Observe(v: Float)
      requires Valid() && !v.PosInf?
      modifies this, counts
      ensures Valid()
      ensures obs == if v.Finite? && v.r >= 0.0 then old(obs) + [v.r] else old(obs)
      ensures sum == if v.Finite? && v.r >= 0.0 then old(sum) + v.r else old(sum)
    {
      if v.NaN? || v.NegInf? || v.r < 0.0 {
        return;
      }
      var idx := BucketOf(bounds, v.r);
      counts[idx] := counts[idx] + 1;
      sum := sum + v.r;
      count := count + 1;
      ghost var was := obs;
      obs := obs + [v.r];
      assert obs[..|obs| - 1] == was;
    }

    /** Prints the family: cumulative buckets, then the count and the sum. */
    method Render(format: Format, name: string, labels: seq<(string, string)>) returns (out: seq<Entry>)
      requires Valid() && IncreasingBounds(bounds)
      ensures out == Rendered(format, bounds, Recorded(labels, obs, Total(obs)), name)
    {
      var cum := 0;
      var lines: seq<Entry> := [];
      for i := 0 to |bounds|
        invariant cum == CountUpTo(obs, bounds, i)
        invariant lines == BucketEntries(format, bounds, obs, name, labels)[..i]
      {
        cum := cum + counts[i];
        RunningTotalIsCountLe(obs, bounds, i);
        lines := lines + [Labelled(name + "_bucket", labels + [("le", format.le(bounds[i]))], format.count(cum))];
      }
      cum := cum + counts[|bounds|];
      RunningTotalIsCountLe(obs, bounds, |bounds|);
      lines := lines + [Labelled(name + "_bucket", labels + [("le", "+Inf")], format.count(cum))];
      assert lines == BucketEntries(format, bounds, obs, name, labels);
      out := [Comment("TYPE " + name + " histogram")] + lines +
             [Labelled(name + "_count", labels, format.count(count)),
              Labelled(name + "_sum", labels, format.sum(sum))];
    }
  }
}
