/**
  The bounded fan-out of ScrapeAll in internal/collector/collector.go: a semaphore of
  Concurrency slots and a wait group, as a transition system over the spawning loop and
  the goroutines it starts.
  */
module ScrapeAll {

  /** A target's goroutine; its deferred calls release the semaphore, then the wait group. */
  datatype Task = NotStarted | Scraping | Scraped | Released | Finished

  /** The spawning loop: at the select, between acquiring and starting, waiting, returned. */
  datatype Spawner = AtSelect | Acquired | Waiting | Returned

  datatype State = State(
    concurrency: nat,
    tasks: seq<Task>,
    next: nat,
    slots: nat,
    waiting: nat,
    cancelled: bool,
    gaveUp: bool,
    spawner: Spawner)

  datatype Step =
    | Cancel
    | Acquire
    | GiveUp
    | Start
    | LoopEnds
    | Finish(task: nat)
    | Release(task: nat)
    | Done(task: nat)
    | Return

  function Init(targets: nat, concurrency: nat): State {
    State(concurrency, seq(targets, _ => NotStarted), 0, 0, 0, false, false, AtSelect)
  }

  predicate Enabled(s: State, a: Step) {
    match a
    case Cancel => !s.cancelled
    case Acquire => s.spawner.AtSelect? && s.next < |s.tasks| && s.slots < s.concurrency
    case GiveUp => s.spawner.AtSelect? && s.next < |s.tasks| && s.cancelled
    case Start => s.spawner.Acquired? && s.next < |s.tasks|
    case LoopEnds => s.spawner.AtSelect? && s.next == |s.tasks|
    case Finish(i) => i < |s.tasks| && s.tasks[i] == Scraping
    case Release(i) => i < |s.tasks| && s.tasks[i] == Scraped && s.slots > 0
    case Done(i) => i < |s.tasks| && s.tasks[i] == Released && s.waiting > 0
    case Return => s.spawner.Waiting? && s.waiting == 0
  }

  function Apply(s: State, a: Step): State
    requires Enabled(s, a)
  {
    match a
    case Cancel => s.(cancelled := true)
    case Acquire => s.(slots := s.slots + 1, spawner := Acquired)
    case GiveUp => s.(gaveUp := true, spawner := Waiting)
    case Start =>
      s.(tasks := s.tasks[s.next := Scraping], next := s.next + 1, waiting := s.waiting + 1, spawner := AtSelect)
    case LoopEnds => s.(spawner := Waiting)
    case Finish(i) => s.(tasks := s.tasks[i := Scraped])
    case Release(i) => s.(tasks := s.tasks[i := Released], slots := s.slots - 1)
    case Done(i) => s.(tasks := s.tasks[i := Finished], waiting := s.waiting - 1)
    case Return => s.(spawner := Returned)
  }

  datatype Result = Reached(state: State) | Stuck

  function Exec(s: State, steps: seq<Step>): Result
    decreases |steps|
  {
    if steps == [] then Reached(s)
    else if Enabled(s, steps[0]) then Exec(Apply(s, steps[0]), steps[1..])
    else Stuck
  }

  // ---------------------------------------------------------------------------
  // Invariant
  // ---------------------------------------------------------------------------

  function Weight(t: Task, stage: nat): nat {
    match stage
    case 0 => if t.Scraping? then 1 else 0
    case 1 => if t.Scraping? || t.Scraped? then 1 else 0
    case 2 => if t.Scraping? || t.Scraped? || t.Released? then 1 else 0
    case _ => match t case NotStarted => 5 case Scraping => 3 case Scraped => 2 case Released => 1 case Finished => 0
  }

  /** Tasks in flight (stage 0), holding a slot (1), holding the wait group (2), or work left (3). */
  function Count(tasks: seq<Task>, stage: nat): nat {
    if tasks == [] then 0 else Count(tasks[..|tasks| - 1], stage) + Weight(tasks[|tasks| - 1], stage)
  }

  lemma {:induction false} CountUpdate(tasks: seq<Task>, i: nat, t: Task, stage: nat)
    requires i < |tasks|
    ensures Count(tasks[i := t], stage) + Weight(tasks[i], stage) == Count(tasks, stage) + Weight(t, stage)
  {
    var n := |tasks| - 1;
    if i < n {
      CountUpdate(tasks[..n], i, t, stage);
      assert tasks[i := t][..n] == tasks[..n][i := t];
    } else {
      assert tasks[i := t][..n] == tasks[..n];
    }
  }

  lemma {:induction false} CountPositive(tasks: seq<Task>, i: nat, stage: nat)
    requires i < |tasks|
    ensures Count(tasks, stage) >= Weight(tasks[i], stage)
  {
    if i < |tasks| - 1 {
      CountPositive(tasks[..|tasks| - 1], i, stage);
    }
  }

  /** Nobody is left when the count is zero. */
  lemma CountZero(tasks: seq<Task>, stage: nat)
    requires Count(tasks, stage) == 0
    ensures forall i :: 0 <= i < |tasks| ==> Weight(tasks[i], stage) == 0
  {
  }

  lemma {:induction false} CountBelowNext(tasks: seq<Task>)
    ensures Count(tasks, 0) <= Count(tasks, 1)
  {
    if tasks != [] {
      CountBelowNext(tasks[..|tasks| - 1]);
    }
  }

  predicate Inv(s: State) {
    && s.next <= |s.tasks|
    && (forall i :: 0 <= i < |s.tasks| ==> (s.tasks[i].NotStarted? <==> s.next <= i))
    && s.slots == Count(s.tasks, 1) + (if s.spawner.Acquired? then 1 else 0)
    && s.slots <= s.concurrency
    && s.waiting == Count(s.tasks, 2)
    && (s.spawner.Acquired? ==> s.next < |s.tasks|)
    && (s.spawner.Returned? ==> s.waiting == 0)
    && (s.gaveUp ==> s.cancelled)
    && (s.spawner in {Waiting, Returned} ==> s.gaveUp || s.next == |s.tasks|)
  }

  lemma {:induction false} NothingStarted(n: nat, stage: nat)
    ensures Count(seq(n, _ => NotStarted), stage) == if stage < 3 then 0 else 5 * n
  {
    if n > 0 {
      NothingStarted(n - 1, stage);
      assert seq(n, _ => NotStarted)[..n - 1] == seq(n - 1, _ => NotStarted);
    }
  }

  lemma InitInv(targets: nat, concurrency: nat)
    ensures Inv(Init(targets, concurrency))
  {
    NothingStarted(targets, 1);
    NothingStarted(targets, 2);
  }

  lemma StartKeepsInv(s: State)
    requires Inv(s) && Enabled(s, Start)
    ensures Inv(Apply(s, Start))
  {
    CountUpdate(s.tasks, s.next, Scraping, 1);
    CountUpdate(s.tasks, s.next, Scraping, 2);
  }

  lemma FinishKeepsInv(s: State, i: nat)
    requires Inv(s) && Enabled(s, Finish(i))
    ensures Inv(Apply(s, Finish(i)))
  {
    CountUpdate(s.tasks, i, Scraped, 1);
    CountUpdate(s.tasks, i, Scraped, 2);
  }

  lemma ReleaseKeepsInv(s: State, i: nat)
    requires Inv(s) && Enabled(s, Release(i))
    ensures Inv(Apply(s, Release(i)))
  {
    CountUpdate(s.tasks, i, Released, 1);
    CountUpdate(s.tasks, i, Released, 2);
  }

  lemma DoneKeepsInv(s: State, i: nat)
    requires Inv(s) && Enabled(s, Done(i))
    ensures Inv(Apply(s, Done(i)))
  {
    CountUpdate(s.tasks, i, Finished, 1);
    CountUpdate(s.tasks, i, Finished, 2);
  }

  lemma StepKeepsInv(s: State, a: Step)
    requires Inv(s) && Enabled(s, a)
    ensures Inv(Apply(s, a))
  {
    match a
    case Start => StartKeepsInv(s);
    case Finish(i) => FinishKeepsInv(s, i);
    case Release(i) => ReleaseKeepsInv(s, i);
    case Done(i) => DoneKeepsInv(s, i);
    case _ =>
  }

  lemma {:induction false} RunKeepsInv(s: State, steps: seq<Step>)
    requires Inv(s) && Exec(s, steps).Reached?
    ensures Inv(Exec(s, steps).state)
    ensures |Exec(s, steps).state.tasks| == |s.tasks| && Exec(s, steps).state.concurrency == s.concurrency
    decreases |steps|
  {
    if steps != [] {
      StepKeepsInv(s, steps[0]);
      RunKeepsInv(Apply(s, steps[0]), steps[1..]);
    }
  }

  /**
    In every reachable state: at most Concurrency scrapes are in flight; the targets
    started are a prefix of the list; and once it has returned, every target started has
    finished, which is all of them unless it gave up because it was cancelled.
    */
  lemma ScrapesAreBounded(targets: nat, concurrency: nat, steps: seq<Step>)
    requires Exec(Init(targets, concurrency), steps).Reached?
    ensures
      var s := Exec(Init(targets, concurrency), steps).state;
      && Count(s.tasks, 0) <= concurrency
      && s.next <= |s.tasks| == targets
      && (forall i :: 0 <= i < targets ==> (s.tasks[i].NotStarted? <==> s.next <= i))
      && (s.spawner.Returned? ==> forall i :: 0 <= i < s.next ==> s.tasks[i] == Finished)
      && (s.spawner.Returned? && !s.gaveUp ==> s.next == targets)
      && (s.gaveUp ==> s.cancelled)
  {
    InitInv(targets, concurrency);
    RunKeepsInv(Init(targets, concurrency), steps);
    var s := Exec(Init(targets, concurrency), steps).state;
    CountBelowNext(s.tasks);
    if s.spawner.Returned? {
      CountZero(s.tasks, 2);
    }
  }

  // ---------------------------------------------------------------------------
  // Progress
  // ---------------------------------------------------------------------------

  /** The first task at some stage of being worked on. */
  lemma {:induction false} SomeoneHolds(tasks: seq<Task>, stage: nat) returns (i: nat)
    requires Count(tasks, stage) > 0
    ensures i < |tasks| && Weight(tasks[i], stage) > 0
  {
    var n := |tasks| - 1;
    if Weight(tasks[n], stage) > 0 {
      i := n;
    } else {
      i := SomeoneHolds(tasks[..n], stage);
    }
  }

  /** The next step of a task that is being worked on. */
  lemma TaskCanMove(s: State, i: nat)
    requires Inv(s) && i < |s.tasks| && Weight(s.tasks[i], 2) > 0
    ensures exists a :: a != Cancel && Enabled(s, a)
  {
    CountPositive(s.tasks, i, 1);
    CountPositive(s.tasks, i, 2);
    var a := if s.tasks[i] == Scraping then Finish(i) else if s.tasks[i] == Scraped then Release(i) else Done(i);
    assert a != Cancel && Enabled(s, a);
  }

  /** With at least one slot no reachable state deadlocks before ScrapeAll has returned. */
  lemma NeverStuck(s: State)
    requires Inv(s) && s.concurrency > 0 && !s.spawner.Returned?
    ensures exists a :: a != Cancel && Enabled(s, a)
  {
    if s.spawner.AtSelect? && s.next < |s.tasks| && s.slots == s.concurrency {
      var i := SomeoneHolds(s.tasks, 1);
      TaskCanMove(s, i);
    } else if s.spawner.Waiting? && s.waiting > 0 {
      var i := SomeoneHolds(s.tasks, 2);
      TaskCanMove(s, i);
    } else {
      var a :=
        if s.spawner.Acquired? then Start
        else if s.spawner.Waiting? then Return
        else if s.next == |s.tasks| then LoopEnds
        else Acquire;
      assert a != Cancel && Enabled(s, a);
    }
  }

  /** The steps that can still be taken. */
  function Remaining(s: State): nat {
    Count(s.tasks, 3) + (if s.cancelled then 0 else 1) +
    match s.spawner
    case AtSelect => 3
    case Acquired => 2
    case Waiting => 1
    case Returned => 0
  }

  lemma StepShrinks(s: State, a: Step)
    requires Inv(s) && Enabled(s, a)
    ensures Remaining(Apply(s, a)) < Remaining(s)
  {
    match a
    case Start => StartShrinks(s);
    case Finish(i) => CountUpdate(s.tasks, i, Scraped, 3);
    case Release(i) => CountUpdate(s.tasks, i, Released, 3);
    case Done(i) => CountUpdate(s.tasks, i, Finished, 3);
    case _ =>
  }

  lemma StartShrinks(s: State)
    requires Inv(s) && Enabled(s, Start)
    ensures Remaining(Apply(s, Start)) < Remaining(s)
  {
    CountUpdate(s.tasks, s.next, Scraping, 3);
  }

  /** So ScrapeAll returns: no schedule, however unfair, keeps it running forever. */
  lemma {:induction false} RunsAreBounded(s: State, steps: seq<Step>)
    requires Inv(s) && Exec(s, steps).Reached?
    ensures |steps| + Remaining(Exec(s, steps).state) <= Remaining(s)
    decreases |steps|
  {
    if steps != [] {
      StepShrinks(s, steps[0]);
      StepKeepsInv(s, steps[0]);
      RunsAreBounded(Apply(s, steps[0]), steps[1..]);
    }
  }

  /**
    Every run takes at most 5 steps per target and 4 more, and one that cannot be
    continued, except by a cancellation, is one that has returned.
    */
  lemma ScrapeAllReturns(targets: nat, concurrency: nat, steps: seq<Step>)
    requires concurrency > 0 && Exec(Init(targets, concurrency), steps).Reached?
    ensures |steps| <= 5 * targets + 4
    ensures
      var s := Exec(Init(targets, concurrency), steps).state;
      (forall a :: a != Cancel ==> !Enabled(s, a)) ==> s.spawner.Returned?
  {
    InitInv(targets, concurrency);
    NothingStarted(targets, 3);
    RunsAreBounded(Init(targets, concurrency), steps);
    RunKeepsInv(Init(targets, concurrency), steps);
    var s := Exec(Init(targets, concurrency), steps).state;
    if !s.spawner.Returned? {
      NeverStuck(s);
    }
  }

  // ---------------------------------------------------------------------------
  // The bound is reached
  // ---------------------------------------------------------------------------

  lemma {:induction false} ExecAppend(s: State, steps: seq<Step>, a: Step)
    requires Exec(s, steps).Reached? && Enabled(Exec(s, steps).state, a)
    ensures Exec(s, steps + [a]) == Reached(Apply(Exec(s, steps).state, a))
    decreases |steps|
  {
    if steps == [] {
      assert [a][1..] == [];
    } else {
      assert (steps + [a])[1..] == steps[1..] + [a];
      ExecAppend(Apply(s, steps[0]), steps[1..], a);
    }
  }

  /** As many scrapes can be in flight at once as there are slots and targets: no slot stays unused. */
  lemma {:induction false} AllSlotsCanBeUsed(targets: nat, concurrency: nat, k: nat) returns (steps: seq<Step>)
    requires k <= targets && k <= concurrency
    ensures Exec(Init(targets, concurrency), steps).Reached?
    ensures
      var s := Exec(Init(targets, concurrency), steps).state;
      && Count(s.tasks, 0) == k && s.next == k && s.slots == k
      && |s.tasks| == targets && s.concurrency == concurrency && s.spawner.AtSelect?
      && forall i :: k <= i < targets ==> s.tasks[i].NotStarted?
  {
    var init := Init(targets, concurrency);
    if k == 0 {
      steps := [];
      NothingStarted(targets, 0);
    } else {
      var before := AllSlotsCanBeUsed(targets, concurrency, k - 1);
      var s := Exec(init, before).state;
      ExecAppend(init, before, Acquire);
      ExecAppend(init, before + [Acquire], Start);
      CountUpdate(s.tasks, s.next, Scraping, 0);
      steps := before + [Acquire] + [Start];
    }
  }
}
