/**
 The life of each fiber in the runs of the scheduler: under the client discipline
 the steps of all workers, taken together, treat every fiber as fiber.cpp allows.
 */
module SchedulerHistory {
  import opened Wrappers
  import opened Fibers
  import opened TaskQueue
  import opened Scheduler
  import opened SchedulerOwnership
  import opened Sequences

  function PcEvent(wk: Worker, f: nat): Option<Event> {
    match wk.pc
    case Switch(g, _) => if g == f then Some(SwapIn) else None
    case Park(g, _) => if g == f then Some(Event.Park) else None
    case Recycle(g) => if g == f then Some(Reset) else None
    case Prepare(_) => if wk.cbFiber == Some(f) then Some(Reset) else None
    case _ => None
  }

  function ExitEvent(exit: Exit): Option<Event> {
    match exit
    case ToReady => Some(YieldReady)
    case ToHold => None
    case Returns => Some(Return)
    case Throws => Some(Throw)
  }

  /** What a step does to fiber f, if anything. */
  function StepEvent(s: System, step: Step, f: nat): Option<Event>
    requires Enabled(s, step)
  {
    match step
    case Advance(w) => PcEvent(s.workers[w], f)
    case UserLeaves(w, exit) => if s.workers[w].pc.f == f then ExitEvent(exit) else None
    case _ => None
  }

  function Listed(e: Option<Event>): seq<Event> {
    if e.Some? then [e.value] else []
  }

  /** What a run does to fiber f. */
  function History(s: System, steps: seq<Step>, f: nat): seq<Event>
    requires IsRun(s, steps)
    decreases steps
  {
    if steps == [] then []
    else
      Listed(StepEvent(s, steps[0], f)) + History(Apply(s, steps[0]), steps[1..], f)
  }

  ghost predicate Explains(e: Option<Event>, before: State, after: State) {
    if e.None? then after == before else Admits(e.value, before) && Fibers.After(e.value) == after
  }

  lemma FetchExplained(sh: Shared, w: int, wk: Worker, f: nat)
    requires Knows(sh, wk) && BeforeSwitch(wk.pc)
    ensures Explains(PcEvent(wk, f), StateOf(sh.states, f), StateOf(Fetch(sh, w, wk).sh.states, f))
  {
  }

  lemma RetireExplained(sh: Shared, wk: Worker, f: nat)
    requires Knows(sh, wk) && AfterSwitch(wk.pc)
    ensures Explains(PcEvent(wk, f), StateOf(sh.states, f), StateOf(Retire(sh, wk).sh.states, f))
  {
  }

  lemma ExitExplained(sh: Shared, wk: Worker, exit: Exit, f: nat)
    requires Knows(sh, wk) && wk.pc.Inside?
    ensures Explains(if wk.pc.f == f then ExitEvent(exit) else None,
                     StateOf(sh.states, f), StateOf(Exited(sh, wk, exit).sh.states, f))
  {
  }

  lemma StepExplained(s: System, step: Step, f: nat)
    requires Owned(s) && Enabled(s, step)
    ensures Explains(StepEvent(s, step, f), StateOf(s.sh.states, f), StateOf(Apply(s, step).sh.states, f))
  {
    match step
    case Advance(w) =>
      OwnedKnows(s, w);
      if BeforeSwitch(s.workers[w].pc) { FetchExplained(s.sh, w, s.workers[w], f); }
      else if AfterSwitch(s.workers[w].pc) { RetireExplained(s.sh, s.workers[w], f); }
    case UserLeaves(w, exit) =>
      OwnedKnows(s, w);
      ExitExplained(s.sh, s.workers[w], exit, f);
    case _ =>
  }

  lemma AdmittedMore(evs: seq<Event>, e: Option<Event>, after: State)
    requires Admitted(evs) && Explains(e, Last(evs), after)
    ensures Admitted(evs + Listed(e)) && Last(evs + Listed(e)) == after
  {
    if e.None? {
      EmptyRight(evs);
    } else {
      AdmittedAppend(evs, e.value);
    }
  }

  lemma {:induction false} HistoryExplained(s: System, steps: seq<Step>, f: nat, evs: seq<Event>)
    requires Owned(s) && IsRun(s, steps) && DisciplinedRun(s, steps)
    requires Admitted(evs) && Last(evs) == StateOf(s.sh.states, f)
    ensures Admitted(evs + History(s, steps, f))
    ensures Last(evs + History(s, steps, f)) == StateOf(Final(s, steps).sh.states, f)
    decreases steps
  {
    if steps == [] {
      EmptyRight(evs);
    } else {
      var e, t := StepEvent(s, steps[0], f), Apply(s, steps[0]);
      StepKeeps(s, steps[0]);
      StepExplained(s, steps[0], f);
      AdmittedMore(evs, e, StateOf(t.sh.states, f));
      HistoryExplained(t, steps[1..], f, evs + Listed(e));
      Assoc(evs, Listed(e), History(t, steps[1..], f));
    }
  }

  /**
   In every disciplined run, whatever the workers and the interleaving, the events of
   each fiber are a history that the assertions of fiber.cpp admit and that ends in
   its state: it is entered and left in turn, by whichever workers, and a finished
   one is not entered again before a Reset.
   */
  lemma LifeCycles(s: System, steps: seq<Step>, f: nat)
    requires Initial(s) && IsRun(s, steps) && DisciplinedRun(s, steps)
    ensures var evs := History(s, steps, f);
      && Admitted(evs) && Last(evs) == StateOf(Final(s, steps).sh.states, f)
      && Count(evs, (e: Event) => e == SwapIn)
         == Count(evs, (e: Event) => e != SwapIn && e != Reset) + if Last(evs) == Exec then 1 else 0
  {
    InitiallyOwned(s);
    HistoryExplained(s, steps, f, []);
    EmptyLeft(History(s, steps, f));
    EntriesAlternateWithExits(History(s, steps, f));
  }
}
