/**
 The worker loop of primo/schedule.cpp as a transition system.  Every worker has a
 program counter; the locked scan, each test and write of a fiber state, each
 counter change, each push and each context switch is one step, and the steps of
 all workers, of the code running in fibers and of outside threads interleave.
 Line numbers are those of primo/schedule.cpp unless another file is named.
 */
module Scheduler {
  import opened Wrappers
  import opened Fibers
  import opened TaskQueue

  datatype Pc =
    | Loop                          // 149-153, about to lock and scan
    | Picked(e: Entry)              // 181, an entry in hand
    | Prepare(e: Entry)             // 194-198, callback fiber needed
    | Check(f: nat, e: Entry)       // fiber.cpp 167, the assertion of SwapIn
    | Switch(f: nat, e: Entry)      // fiber.cpp 168-169, write Exec and switch
    | Inside(f: nat, viaCb: bool)   // the fiber's own code runs
    | Leaving(f: nat, viaCb: bool)  // state written, not yet switched out
    | Left(f: nat, viaCb: bool)     // 184 and 201
    | After(f: nat, viaCb: bool)    // 186 and 202
    | Settle(f: nat, viaCb: bool)   // 188 and 205
    | Requeue(f: nat, viaCb: bool)  // 187 and 203
    | Park(f: nat, viaCb: bool)     // 190 and 209
    | Recycle(f: nat)               // 207
    | Release(f: nat)               // 204 and 210, drop the callback fiber
    | Skip                          // 214
    | NoPick                        // 217
    | IdleCount                     // 222
    | IdleCheck                     // 223
    | InIdle                        // 245
    | LeftIdle                      // 224
    | AfterIdle                     // 225-228
    | Gone                          // 218, run has returned

  /** cbFiber and idle are the locals of run; the idle fiber is known to its worker only. */
  datatype Worker = Worker(pc: Pc, cbFiber: Option<nat>, idle: State)

  /** What became of a picked entry. */
  datatype Fate = Ran(entry: Entry) | Dropped(entry: Entry, seen: State)

  /**
   What the workers share.  Fibers are numbered in order of creation.  The history
   accepted counts pushes; fates logs each switch into a picked task and each
   entry skipped un-run.
   */
  datatype Shared = Shared(
    states: seq<State>,
    queue: seq<Entry>,
    active: int,
    idling: int,
    autoStop: bool,
    stopping: bool,
    accepted: nat,
    fates: seq<Fate>,
    aborted: bool)

  datatype System = System(sh: Shared, workers: map<int, Worker>)

  datatype Act = MakeFiber | Submit(task: Option<Task>, thread: int)

  datatype Exit = ToReady | ToHold | Returns | Throws

  datatype Step =
    | Advance(w: int)
    | UserActs(w: int, act: Act)
    | UserLeaves(w: int, exit: Exit)
    | External(act: Act)
    | RequestStop                   // 75
    | ConfirmStop                   // 95

  const START_SHARED := Shared([], [], 0, 0, false, false, 0, [], false)

  const START_WORKER := Worker(Loop, None, Init)

  /** After start with the given thread ids and use_caller false. */
  ghost predicate Initial(s: System) {
    s.sh == START_SHARED && forall w <- s.workers :: w != ANY_THREAD && s.workers[w] == START_WORKER
  }

  /** The value of stopping() at this moment. */
  predicate StoppingNow(sh: Shared) {
    sh.autoStop && sh.stopping && sh.queue == [] && sh.active == 0
  }

  function Write(sh: Shared, f: nat, st: State): Shared {
    if f < |sh.states| then sh.(states := sh.states[f := st]) else sh
  }

  function Push(sh: Shared, task: Task, thread: int): Shared {
    sh.(queue := sh.queue + [Entry(task, thread, sh.accepted)], accepted := sh.accepted + 1)
  }

  function Abort(sh: Shared): Shared {
    sh.(aborted := true)
  }

  /** Code in a fiber, or another thread, makes a fiber or calls schedule. */
  function Acted(sh: Shared, act: Act): Shared {
    match act
    case MakeFiber => sh.(states := sh.states + [Init])
    case Submit(task, thread) => if task.None? then sh else Push(sh, task.value, thread)
  }

  /** The result of one step of a worker: the shared part and the worker itself. */
  datatype Outcome = Outcome(sh: Shared, wk: Worker)

  /** The code of the running fiber yields, returns or throws. */
  function Exited(sh: Shared, wk: Worker, exit: Exit): Outcome
    requires wk.pc.Inside?
  {
    var f, v := wk.pc.f, wk.pc.viaCb;
    match exit
    case ToReady =>
      if StateOf(sh.states, f) != Exec then Outcome(Abort(sh), wk)
      else Outcome(Write(sh, f, Ready), wk.(pc := Leaving(f, v)))
    case ToHold =>
      if StateOf(sh.states, f) != Exec then Outcome(Abort(sh), wk)
      else Outcome(sh, wk.(pc := Left(f, v)))
    case Returns => Outcome(Write(sh, f, Term), wk.(pc := Leaving(f, v)))
    case Throws => Outcome(Write(sh, f, Except), wk.(pc := Leaving(f, v)))
  }

  predicate BeforeSwitch(pc: Pc) {
    pc.Loop? || pc.Picked? || pc.Prepare? || pc.Check? || pc.Switch?
  }

  predicate AfterSwitch(pc: Pc) {
    pc.Leaving? || pc.Left? || pc.After? || pc.Settle? || pc.Requeue? || pc.Park? || pc.Recycle? || pc.Release?
  }

  /** From the scan to the moment the picked task runs. */
  function Fetch(sh: Shared, w: int, wk: Worker): Outcome
    requires BeforeSwitch(wk.pc)
  {
    match wk.pc
    case Loop =>
      var k := FirstEligible(sh.queue, w, sh.states);
      if k < |sh.queue| then
        Outcome(sh.(queue := Without(sh.queue, k), active := sh.active + 1), wk.(pc := Picked(sh.queue[k])))
      else Outcome(sh, wk.(pc := NoPick))
    case Picked(e) =>
      if e.task.CbTask? then Outcome(sh, wk.(pc := Prepare(e)))
      else
        var st := StateOf(sh.states, e.task.fiber);
        if Finished(st) then Outcome(sh.(fates := sh.fates + [Dropped(e, st)]), wk.(pc := Skip))
        else Outcome(sh, wk.(pc := Check(e.task.fiber, e)))
    case Prepare(e) =>
      if wk.cbFiber.None? then
        var f := |sh.states|;
        Outcome(sh.(states := sh.states + [Init]), wk.(pc := Check(f, e), cbFiber := Some(f)))
      else
        var f := wk.cbFiber.value;
        if !Admits(Reset, StateOf(sh.states, f)) then Outcome(Abort(sh), wk)
        else Outcome(Write(sh, f, Init), wk.(pc := Check(f, e)))
    case Check(f, e) =>
      if StateOf(sh.states, f) == Exec then Outcome(Abort(sh), wk) else Outcome(sh, wk.(pc := Switch(f, e)))
    case Switch(f, e) =>
      if Finished(StateOf(sh.states, f)) then Outcome(Abort(sh), wk)
      else Outcome(Write(sh.(fates := sh.fates + [Ran(e)]), f, Exec), wk.(pc := Inside(f, e.task.CbTask?)))
  }

  /** From the moment the code that was switched into has left to the next scan. */
  function Retire(sh: Shared, wk: Worker): Outcome
    requires AfterSwitch(wk.pc)
  {
    match wk.pc
    case Leaving(f, v) => Outcome(sh, wk.(pc := Left(f, v)))
    case Left(f, v) => Outcome(sh.(active := sh.active - 1), wk.(pc := After(f, v)))
    case After(f, v) =>
      Outcome(sh, wk.(pc := if StateOf(sh.states, f) == Ready then Requeue(f, v) else Settle(f, v)))
    case Settle(f, v) =>
      Outcome(sh, wk.(pc := if !Finished(StateOf(sh.states, f)) then Pc.Park(f, v)
                            else if v then Recycle(f) else Loop))
    case Requeue(f, v) =>
      Outcome(Push(sh, FiberTask(f), ANY_THREAD), wk.(pc := if v then Release(f) else Loop))
    case Park(f, v) => Outcome(Write(sh, f, Hold), wk.(pc := if v then Release(f) else Loop))
    case Recycle(f) =>
      if !Admits(Reset, StateOf(sh.states, f)) then Outcome(Abort(sh), wk)
      else Outcome(Write(sh, f, Init), wk.(pc := Loop))
    case Release(f) => Outcome(sh, wk.(pc := Loop, cbFiber := None))
  }

  /** The branch without a task: idle, or leave the loop. */
  function Rest(sh: Shared, wk: Worker): Outcome
    requires !BeforeSwitch(wk.pc) && !AfterSwitch(wk.pc)
  {
    match wk.pc
    case Skip => Outcome(sh.(active := sh.active - 1), wk.(pc := Loop))
    case NoPick =>
      if wk.idle != Term then Outcome(sh, wk.(pc := IdleCount))
      else if wk.cbFiber.Some? && !Destructible(StateOf(sh.states, wk.cbFiber.value)) then Outcome(Abort(sh), wk)
      else Outcome(sh, wk.(pc := Gone))
    case IdleCount => Outcome(sh.(idling := sh.idling + 1), wk.(pc := IdleCheck))
    case IdleCheck =>
      if !Admits(SwapIn, wk.idle) then Outcome(Abort(sh), wk)
      else Outcome(sh, wk.(pc := InIdle, idle := Exec))
    case InIdle => Outcome(sh, wk.(pc := LeftIdle, idle := if StoppingNow(sh) then Term else wk.idle))
    case LeftIdle => Outcome(sh.(idling := sh.idling - 1), wk.(pc := AfterIdle))
    case AfterIdle => Outcome(sh, wk.(pc := Loop, idle := if Finished(wk.idle) then wk.idle else Hold))
    case _ => Outcome(sh, wk)
  }

  function Advanced(sh: Shared, w: int, wk: Worker): Outcome {
    if BeforeSwitch(wk.pc) then Fetch(sh, w, wk)
    else if AfterSwitch(wk.pc) then Retire(sh, wk)
    else Rest(sh, wk)
  }

  predicate Names(sh: Shared, act: Act) {
    act.Submit? && act.task.Some? && act.task.value.FiberTask? ==> act.task.value.fiber < |sh.states|
  }

  predicate Enabled(s: System, step: Step) {
    !s.sh.aborted &&
    match step
    case Advance(w) => w in s.workers && !s.workers[w].pc.Inside? && !s.workers[w].pc.Gone?
    case UserActs(w, act) => w in s.workers && s.workers[w].pc.Inside? && Names(s.sh, act)
    case UserLeaves(w, _) => w in s.workers && s.workers[w].pc.Inside?
    case External(act) => Names(s.sh, act)
    case RequestStop => true
    case ConfirmStop => s.sh.autoStop
  }

  function Commit(s: System, w: int, o: Outcome): System {
    System(o.sh, s.workers[w := o.wk])
  }

  function Apply(s: System, step: Step): System
    requires Enabled(s, step)
  {
    match step
    case Advance(w) => Commit(s, w, Advanced(s.sh, w, s.workers[w]))
    case UserActs(_, act) => s.(sh := Acted(s.sh, act))
    case UserLeaves(w, exit) => Commit(s, w, Exited(s.sh, s.workers[w], exit))
    case External(act) => s.(sh := Acted(s.sh, act))
    case RequestStop => s.(sh := s.sh.(autoStop := true))
    case ConfirmStop => s.(sh := s.sh.(stopping := true))
  }

  /** Finite runs, with any behaviour of user code and outside threads. */
  predicate IsRun(s: System, steps: seq<Step>)
    decreases steps
  {
    steps == [] || (Enabled(s, steps[0]) && IsRun(Apply(s, steps[0]), steps[1..]))
  }

  function Final(s: System, steps: seq<Step>): System
    requires IsRun(s, steps)
    decreases steps
  {
    if steps == [] then s else Final(Apply(s, steps[0]), steps[1..])
  }

  /** Some finite run leads from one state to the other. */
  ghost predicate Reach(s: System, t: System) {
    exists steps :: IsRun(s, steps) && Final(s, steps) == t
  }

  lemma ReachSelf(s: System)
    ensures Reach(s, s)
  {
    assert IsRun(s, []) && Final(s, []) == s;
  }

  lemma ReachStep(s: System, t: System, step: Step)
    requires Reach(s, t) && Enabled(t, step)
    ensures Reach(s, Apply(t, step))
  {
    var steps :| IsRun(s, steps) && Final(s, steps) == t;
    RunExtend(s, steps, step);
  }

  lemma {:induction false} RunExtend(s: System, steps: seq<Step>, step: Step)
    requires IsRun(s, steps) && Enabled(Final(s, steps), step)
    ensures IsRun(s, steps + [step]) && Final(s, steps + [step]) == Apply(Final(s, steps), step)
    decreases steps
  {
    if steps == [] {
      assert steps + [step] == [step] && [step][1..] == [];
      assert IsRun(Apply(s, step), []);
    } else {
      RunExtend(Apply(s, steps[0]), steps[1..], step);
      assert (steps + [step])[1..] == steps[1..] + [step];
    }
  }
}
