/**
 Why the guarantees are stated as they are: concrete runs of two workers, and
 what an entry pinned to a departed worker does to stop.
 */
module SchedulerWitness {
  import opened Wrappers
  import opened Fibers
  import opened TaskQueue
  import opened Scheduler
  import opened SchedulerOwnership
  import opened SchedulerDrain
  import opened SchedulerStop

  /** From the pick of a fiber that may be entered, three steps lead into its code. */
  lemma PickedRuns(s: System, steps: seq<Step>, w: int, e: Entry) returns (more: seq<Step>)
    requires IsRun(s, steps) && var t := Final(s, steps);
      && !t.sh.aborted && w in t.workers && t.workers[w].pc == Picked(e) && e.task.FiberTask?
      && e.task.fiber < |t.sh.states| && Admits(SwapIn, t.sh.states[e.task.fiber])
    ensures IsRun(s, more)
    ensures var t, f := Final(s, steps), e.task.fiber;
      Final(s, more) == System(t.sh.(states := t.sh.states[f := Exec], fates := t.sh.fates + [Ran(e)]),
                               t.workers[w := t.workers[w].(pc := Inside(f, false))])
    ensures DisciplinedRun(s, steps) ==> DisciplinedRun(s, more)
    ensures ClosedRun(s, steps) ==> ClosedRun(s, more)
  {
    Extend(s, steps, Advance(w));
    more := steps + [Advance(w)];
    Extend(s, more, Advance(w));
    more := more + [Advance(w)];
    Extend(s, more, Advance(w));
    more := more + [Advance(w)];
  }

  /** A running fiber yields ready: three steps later its worker has stopped counting it. */
  lemma YieldsReady(s: System, steps: seq<Step>, w: int, f: nat) returns (more: seq<Step>)
    requires IsRun(s, steps) && var t := Final(s, steps);
      && !t.sh.aborted && w in t.workers && t.workers[w].pc == Inside(f, false)
      && f < |t.sh.states| && t.sh.states[f] == Exec && !QueuedIn(t.sh.queue, f)
    ensures IsRun(s, more)
    ensures var t := Final(s, steps);
      Final(s, more) == System(t.sh.(states := t.sh.states[f := Ready], active := t.sh.active - 1),
                               t.workers[w := t.workers[w].(pc := After(f, false))])
    ensures DisciplinedRun(s, steps) ==> DisciplinedRun(s, more)
    ensures ClosedRun(s, steps) ==> ClosedRun(s, more)
  {
    Extend(s, steps, UserLeaves(w, ToReady));
    more := steps + [UserLeaves(w, ToReady)];
    Extend(s, more, Advance(w));
    more := more + [Advance(w)];
    Extend(s, more, Advance(w));
    more := more + [Advance(w)];
  }

  const F0 := Entry(FiberTask(0), ANY_THREAD, 0)

  function Two(sh: Shared, first: Pc, second: Pc): System {
    System(sh, map[1 := Worker(first, None, Init), 2 := Worker(second, None, Init)])
  }

  const BEGIN := Two(START_SHARED, Loop, Loop)

  const QUEUED_ONCE := Two(START_SHARED.(states := [Init], queue := [F0], accepted := 1), Loop, Loop)

  const IN_FIRST_HAND := Two(START_SHARED.(states := [Init], active := 1, accepted := 1), Picked(F0), Loop)

  /** Fiber 0 runs on worker 1. */
  const RUNNING := Two(START_SHARED.(states := [Exec], active := 1, accepted := 1, fates := [Ran(F0)]),
                       Inside(0, false), Loop)

  lemma ReachQueued() returns (steps: seq<Step>)
    ensures Initial(BEGIN) && IsRun(BEGIN, steps)
    ensures Final(BEGIN, steps) == QUEUED_ONCE
    ensures DisciplinedRun(BEGIN, steps) && ClosedRun(BEGIN, steps)
  {
    steps := [External(MakeFiber)];
    Extend(BEGIN, [], External(MakeFiber));
    assert [] + steps == steps;
    assert Final(BEGIN, steps) == Two(START_SHARED.(states := [Init]), Loop, Loop);
    Extend(BEGIN, steps, External(Submit(Some(FiberTask(0)), ANY_THREAD)));
    steps := steps + [External(Submit(Some(FiberTask(0)), ANY_THREAD))];
  }

  lemma ReachRunning() returns (steps: seq<Step>)
    ensures Initial(BEGIN) && IsRun(BEGIN, steps) && Final(BEGIN, steps) == RUNNING
    ensures DisciplinedRun(BEGIN, steps) && ClosedRun(BEGIN, steps)
  {
    steps := ReachQueued();
    FirstPick();
    Extend(BEGIN, steps, Advance(1));
    steps := steps + [Advance(1)];
    steps := PickedRuns(BEGIN, steps, 1, F0);
    RunningIs();
  }

  lemma FirstPick()
    ensures Enabled(QUEUED_ONCE, Advance(1)) && Apply(QUEUED_ONCE, Advance(1)) == IN_FIRST_HAND
  {
    assert Without([F0], 0) == [];
  }

  lemma RunningIs()
    ensures RUNNING == System(IN_FIRST_HAND.sh.(states := IN_FIRST_HAND.sh.states[0 := Exec], fates := [] + [Ran(F0)]),
                              IN_FIRST_HAND.workers[1 := IN_FIRST_HAND.workers[1].(pc := Inside(0, false))])
  {
    assert [Init][0 := Exec] == [Exec];
  }

  const F0_AGAIN := Entry(FiberTask(0), ANY_THREAD, 1)

  const READY_AND_QUEUED :=
    Two(RUNNING.sh.(states := [Ready], queue := [F0_AGAIN], accepted := 2), Leaving(0, false), Loop)

  lemma ReachReadyAndQueued() returns (steps: seq<Step>)
    ensures IsRun(BEGIN, steps) && Final(BEGIN, steps) == READY_AND_QUEUED
  {
    steps := ReachRunning();
    var again := UserActs(1, Submit(Some(FiberTask(0)), ANY_THREAD));
    Extend(BEGIN, steps, again);
    steps := steps + [again];
    Extend(BEGIN, steps, UserLeaves(1, ToReady));
    steps := steps + [UserLeaves(1, ToReady)];
    assert [Exec][0 := Ready] == [Ready];
  }

  /**
   The discipline is needed: a fiber that schedules itself and then leaves by
   YieldToReady is entered by the second worker before the first has left it.
   */
  lemma SelfScheduleThenReadyRunsTwice() returns (steps: seq<Step>)
    ensures Initial(BEGIN) && IsRun(BEGIN, steps)
    ensures var t := Final(BEGIN, steps);
      && 1 in t.workers && t.workers[1].pc == Leaving(0, false)
      && 2 in t.workers && t.workers[2].pc == Inside(0, false)
  {
    steps := ReachReadyAndQueued();
    Extend(BEGIN, steps, Advance(2));
    steps := steps + [Advance(2)];
    steps := PickedRuns(BEGIN, steps, 2, F0_AGAIN);
  }

  const STOP_SHARED := RUNNING.sh.(autoStop := true, stopping := true)

  const WINDOW := Two(STOP_SHARED.(states := [Ready], active := 0), After(0, false), Loop)

  lemma StopsRaised(s: System, steps: seq<Step>) returns (more: seq<Step>)
    requires ClosedAndDisciplined(s, steps) && !Final(s, steps).sh.aborted
    ensures ClosedAndDisciplined(s, more)
    ensures Final(s, more) == Final(s, steps).(sh := Final(s, steps).sh.(autoStop := true, stopping := true))
  {
    Extend(s, steps, RequestStop);
    more := steps + [RequestStop];
    Extend(s, more, ConfirmStop);
    more := more + [ConfirmStop];
  }

  lemma WindowIs()
    ensures WINDOW == System(STOP_SHARED.(states := STOP_SHARED.states[0 := Ready], active := STOP_SHARED.active - 1),
                             RUNNING.workers[1 := RUNNING.workers[1].(pc := After(0, false))])
  {
    assert [Exec][0 := Ready] == [Ready];
  }

  /**
   stopping() is not stable: a disciplined run after stop in which it is true
   while a worker holds a ready fiber that it is about to queue again.
   */
  lemma StoppingWithReadyFiberInHand() returns (steps: seq<Step>)
    ensures Initial(BEGIN) && IsRun(BEGIN, steps) && Final(BEGIN, steps) == WINDOW
    ensures DisciplinedRun(BEGIN, steps) && ClosedRun(BEGIN, steps)
    ensures StoppingNow(WINDOW.sh) && Holds(WINDOW.workers[1], 0) && WINDOW.sh.states[0] == Ready
  {
    steps := ReachRunning();
    steps := StopsRaised(BEGIN, steps);
    steps := YieldsReady(BEGIN, steps, 1, 0);
    WindowIs();
  }

  /**
   A disciplined closed run that stop cannot end although every task is pinned to a
   worker of the scheduler: one worker has left for good on the strength of a
   stopping() that did not last.
   */
  lemma StopCanBeLost() returns (steps: seq<Step>)
    ensures Initial(BEGIN) && ClosedAndDisciplined(BEGIN, steps) && Final(BEGIN, steps) == WINDOW
    ensures exists t :: Goes(WINDOW, t) && !CanFinish(t) && forall e <- t.sh.queue :: e.thread in t.workers
  {
    steps := StoppingWithReadyFiberInHand();
    assert 1 in BEGIN.workers;
    InitiallyGood(BEGIN);
    GoodAlong(BEGIN, steps);
    InstabilityCanDoom(WINDOW, 1, 2);
  }
}
