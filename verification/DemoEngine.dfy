/** The request counters of the simulated engine: completeRequests of internal/demo/server.go. */
module DemoEngine {
  import opened Reals

  /** Truncation to an integer, which is the floor for numbers that are not negative. */
  function Truncate(x: real): int {
    if x >= 0.0 then x.Floor else -((-x).Floor)
  }

  /** One tick: how long, the completion rate, and the share that is aborted. */
  datatype Tick = Tick(seconds: real, ratePerSec: real, abortShare: real)

  predicate TickOk(t: Tick) {
    t.seconds >= 0.0 && t.ratePerSec >= 0.0 && t.abortShare >= 0.0
  }

  class EngineState {
    var finished: int
    var aborted: int
    var remainder: real
    var abortRemainder: real

    constructor ()
      ensures finished == 0 && aborted == 0 && remainder == 0.0 && abortRemainder == 0.0
    {
      finished, aborted, remainder, abortRemainder := 0, 0, 0.0, 0.0;
    }

    function View(): Counters
      reads this
    {
      Counters(finished, aborted, remainder, abortRemainder)
    }

    method CompleteRequests(t: Tick) returns (n: int)
      modifies this
      ensures View() == Advance(old(View()), t)
      ensures n == finished - old(finished)
    {
      var exact := Times(t.ratePerSec, t.seconds) + remainder;
      n := Truncate(exact);
      remainder := exact - n as real;
      finished := finished + n;
      abortRemainder := abortRemainder + Times(n as real, t.abortShare);
      if abortRemainder >= 1.0 {
        var whole := abortRemainder.Floor;
        aborted := aborted + whole;
        abortRemainder := abortRemainder - whole as real;
      }
    }
  }

  datatype Counters = Counters(finished: int, aborted: int, remainder: real, abortRemainder: real)

  function Advance(c: Counters, t: Tick): Counters {
    var exact := Times(t.ratePerSec, t.seconds) + c.remainder;
    var n := Truncate(exact);
    var owed := c.abortRemainder + Times(n as real, t.abortShare);
    if owed >= 1.0 then
      Counters(c.finished + n, c.aborted + owed.Floor, exact - n as real, owed - owed.Floor as real)
    else
      Counters(c.finished + n, c.aborted, exact - n as real, owed)
  }

  function Run(ticks: seq<Tick>): Counters {
    if ticks == [] then Counters(0, 0, 0.0, 0.0)
    else Advance(Run(ticks[..|ticks| - 1]), ticks[|ticks| - 1])
  }

  /** The work the ticks ask for, and the aborts their completions ask for. */
  function Work(ticks: seq<Tick>): real {
    if ticks == [] then 0.0
    else
      var t := ticks[|ticks| - 1];
      Work(ticks[..|ticks| - 1]) + Times(t.ratePerSec, t.seconds)
  }

  function AbortsOwed(ticks: seq<Tick>): real {
    if ticks == [] then 0.0
    else
      var init, t := ticks[..|ticks| - 1], ticks[|ticks| - 1];
      AbortsOwed(init) + Times((Run(ticks).finished - Run(init).finished) as real, t.abortShare)
  }

  function TotalSeconds(ticks: seq<Tick>): real {
    if ticks == [] then 0.0 else TotalSeconds(ticks[..|ticks| - 1]) + ticks[|ticks| - 1].seconds
  }

  /** Nothing is lost to truncation: the counters and their remainders add up, always. */
  lemma {:induction false} RemaindersCarryEverything(ticks: seq<Tick>)
    requires forall i :: 0 <= i < |ticks| ==> TickOk(ticks[i])
    ensures
      var c := Run(ticks);
      && c.finished as real + c.remainder == Work(ticks)
      && c.aborted as real + c.abortRemainder == AbortsOwed(ticks)
      && 0.0 <= c.remainder < 1.0 && 0.0 <= c.abortRemainder < 1.0
  {
    if ticks != [] {
      var init, t := ticks[..|ticks| - 1], ticks[|ticks| - 1];
      RemaindersCarryEverything(init);
      assert TickOk(t);
      var exact := Times(t.ratePerSec, t.seconds) + Run(init).remainder;
      TimesIsNonNegative(t.ratePerSec, t.seconds);
      assert 0 <= Truncate(exact);
      TimesIsNonNegative(Truncate(exact) as real, t.abortShare);
    }
  }

  /** However the time was cut into ticks, the counters are the floors of the totals. */
  lemma CountersAreFloors(ticks: seq<Tick>)
    requires forall i :: 0 <= i < |ticks| ==> TickOk(ticks[i])
    ensures Run(ticks).finished == Work(ticks).Floor
    ensures Run(ticks).aborted == AbortsOwed(ticks).Floor
  {
    RemaindersCarryEverything(ticks);
  }

  lemma {:induction false} ConstantTotals(ticks: seq<Tick>, rate: real, share: real)
    requires forall i :: 0 <= i < |ticks| ==> ticks[i].ratePerSec == rate && ticks[i].abortShare == share
    ensures Work(ticks) == Times(rate, TotalSeconds(ticks))
    ensures AbortsOwed(ticks) == Times(Run(ticks).finished as real, share)
  {
    if ticks != [] {
      var init, t := ticks[..|ticks| - 1], ticks[|ticks| - 1];
      ConstantTotals(init, rate, share);
      TimesDistributes(rate, TotalSeconds(init), t.seconds);
      TimesDistributes(share, Run(init).finished as real, (Run(ticks).finished - Run(init).finished) as real);
    }
  }

  /**
    At a constant rate and abort share the counters depend on the total time alone, not
    on the tick interval.
    */
  lemma TickIntervalDoesNotMatter(ticks: seq<Tick>, rate: real, share: real)
    requires rate >= 0.0 && share >= 0.0
    requires forall i :: 0 <= i < |ticks| ==>
      ticks[i].ratePerSec == rate && ticks[i].abortShare == share && ticks[i].seconds >= 0.0
    ensures Run(ticks).finished == Times(rate, TotalSeconds(ticks)).Floor
    ensures Run(ticks).aborted == Times(Run(ticks).finished as real, share).Floor
  {
    CountersAreFloors(ticks);
    ConstantTotals(ticks, rate, share);
  }
}
