/**
 The transition system with a single worker: the paths its program counter takes
 through one iteration of the loop, each as a run.
 */
module LoneWorker {
  import opened Wrappers
  import opened Fibers
  import opened TaskQueue
  import opened Scheduler

  function Lone(sh: Shared, tid: int, wk: Worker): System {
    System(sh, map[tid := wk])
  }

  /** Where the run that began at s0 has got to. */
  ghost predicate At(s0: System, sh: Shared, tid: int, wk: Worker) {
    Reach(s0, Lone(sh, tid, wk))
  }

  lemma Advances(s0: System, sh: Shared, tid: int, wk: Worker)
    requires At(s0, sh, tid, wk) && !sh.aborted && !wk.pc.Inside? && !wk.pc.Gone?
    ensures var o := Advanced(sh, tid, wk); At(s0, o.sh, tid, o.wk)
  {
    var o := Advanced(sh, tid, wk);
    ReachStep(s0, Lone(sh, tid, wk), Advance(tid));
    assert map[tid := wk][tid := o.wk] == map[tid := o.wk];
  }

  lemma Leaves(s0: System, sh: Shared, tid: int, wk: Worker, exit: Exit)
    requires At(s0, sh, tid, wk) && !sh.aborted && wk.pc.Inside?
    ensures var o := Exited(sh, wk, exit); At(s0, o.sh, tid, o.wk)
  {
    var o := Exited(sh, wk, exit);
    ReachStep(s0, Lone(sh, tid, wk), UserLeaves(tid, exit));
    assert map[tid := wk][tid := o.wk] == map[tid := o.wk];
  }

  lemma Submits(s0: System, sh: Shared, tid: int, wk: Worker, task: Task, thread: int)
    requires At(s0, sh, tid, wk) && !sh.aborted && wk.pc.Inside?
    requires task.FiberTask? ==> task.fiber < |sh.states|
    ensures At(s0, Push(sh, task, thread), tid, wk)
  {
    ReachStep(s0, Lone(sh, tid, wk), UserActs(tid, Submit(Some(task), thread)));
  }

  /** From the assertion of SwapIn into the fiber's code. */
  lemma Enters(s0: System, sh: Shared, tid: int, wk: Worker, f: nat, e: Entry)
    requires At(s0, sh, tid, wk) && !sh.aborted && wk.pc == Check(f, e)
    requires f < |sh.states| && Admits(SwapIn, sh.states[f])
    ensures At(s0, sh.(states := sh.states[f := Exec], fates := sh.fates + [Ran(e)]), tid,
               wk.(pc := Inside(f, e.task.CbTask?)))
  {
    Advances(s0, sh, tid, wk);
    Advances(s0, sh, tid, wk.(pc := Switch(f, e)));
  }

  /** How the code left, told from the state it left in. */
  function ExitTo(st: State): Exit {
    match st
    case Ready => ToReady
    case Term => Returns
    case Except => Throws
    case _ => ToHold
  }

  /** From the fiber's code to the point behind SwapIn. */
  lemma SwapsOut(s0: System, sh: Shared, tid: int, wk: Worker, f: nat, v: bool, st: State)
    requires At(s0, sh, tid, wk) && !sh.aborted && wk.pc == Inside(f, v)
    requires f < |sh.states| && sh.states[f] == Exec && (st == Exec || st == Ready || Finished(st))
    ensures At(s0, sh.(states := sh.states[f := st]), tid, wk.(pc := Left(f, v)))
  {
    Leaves(s0, sh, tid, wk, ExitTo(st));
    if st == Exec {
      assert sh.states[f := Exec] == sh.states;
    } else {
      Advances(s0, sh.(states := sh.states[f := st]), tid, wk.(pc := Leaving(f, v)));
    }
  }

  /** What the loop makes of a fiber that has left. */
  function Settle(sh: Shared, f: nat): Shared
    requires f < |sh.states|
  {
    var st := sh.states[f];
    if st == Ready then Push(sh, FiberTask(f), ANY_THREAD)
    else if Finished(st) then sh
    else sh.(states := sh.states[f := Hold])
  }

  function SettlePc(st: State, f: nat, v: bool): Pc {
    if !v then Loop else if Finished(st) then Recycle(f) else Release(f)
  }

  lemma SettlesOrParks(s0: System, sh: Shared, tid: int, wk: Worker, f: nat, v: bool)
    requires At(s0, sh, tid, wk) && !sh.aborted && wk.pc == Pc.Settle(f, v) && f < |sh.states|
    requires sh.states[f] != Ready
    ensures At(s0, Settle(sh, f), tid, wk.(pc := SettlePc(sh.states[f], f, v)))
  {
    Advances(s0, sh, tid, wk);
    if !Finished(sh.states[f]) {
      Advances(s0, sh, tid, wk.(pc := Pc.Park(f, v)));
    }
  }

  /** From behind SwapIn to the next scan, or to what remains for a callback fiber. */
  lemma Settles(s0: System, sh: Shared, tid: int, wk: Worker, f: nat, v: bool)
    requires At(s0, sh, tid, wk) && !sh.aborted && wk.pc == Left(f, v) && f < |sh.states|
    ensures At(s0, Settle(sh.(active := sh.active - 1), f), tid, wk.(pc := SettlePc(sh.states[f], f, v)))
  {
    var sh1 := sh.(active := sh.active - 1);
    Advances(s0, sh, tid, wk);
    Advances(s0, sh1, tid, wk.(pc := After(f, v)));
    if sh.states[f] == Ready {
      Advances(s0, sh1, tid, wk.(pc := Requeue(f, v)));
    } else {
      SettlesOrParks(s0, sh1, tid, wk.(pc := Pc.Settle(f, v)), f, v);
    }
  }

  lemma IntoIdle(s0: System, sh: Shared, tid: int, wk: Worker)
    requires At(s0, sh, tid, wk) && !sh.aborted && wk.pc == NoPick && (wk.idle == Init || wk.idle == Hold)
    ensures At(s0, sh.(idling := sh.idling + 1), tid, wk.(pc := InIdle, idle := Exec))
  {
    Advances(s0, sh, tid, wk);
    Advances(s0, sh, tid, wk.(pc := IdleCount));
    Advances(s0, sh.(idling := sh.idling + 1), tid, wk.(pc := IdleCheck));
  }

  lemma OutOfIdle(s0: System, sh: Shared, tid: int, wk: Worker)
    requires At(s0, sh, tid, wk) && !sh.aborted && wk.pc == InIdle && wk.idle == Exec
    ensures At(s0, sh.(idling := sh.idling - 1), tid, wk.(pc := Loop, idle := if StoppingNow(sh) then Term else Hold))
  {
    var idle := if StoppingNow(sh) then Term else Exec;
    Advances(s0, sh, tid, wk);
    Advances(s0, sh, tid, wk.(pc := LeftIdle, idle := idle));
    Advances(s0, sh.(idling := sh.idling - 1), tid, wk.(pc := AfterIdle, idle := idle));
  }

  /** One visit to the idle fiber. */
  lemma Idles(s0: System, sh: Shared, tid: int, wk: Worker)
    requires At(s0, sh, tid, wk) && !sh.aborted && wk.pc == NoPick && (wk.idle == Init || wk.idle == Hold)
    ensures At(s0, sh, tid, wk.(pc := Loop, idle := if StoppingNow(sh) then Term else Hold))
  {
    IntoIdle(s0, sh, tid, wk);
    OutOfIdle(s0, sh.(idling := sh.idling + 1), tid, wk.(pc := InIdle, idle := Exec));
  }

  /** An entry whose fiber has finished is dropped. */
  lemma Drops(s0: System, sh: Shared, tid: int, wk: Worker, e: Entry)
    requires At(s0, sh, tid, wk) && !sh.aborted && wk.pc == Picked(e)
    requires e.task.FiberTask? && Finished(StateOf(sh.states, e.task.fiber))
    ensures At(s0, sh.(active := sh.active - 1, fates := sh.fates + [Dropped(e, StateOf(sh.states, e.task.fiber))]), tid,
               wk.(pc := Loop))
  {
    Advances(s0, sh, tid, wk);
    Advances(s0, sh.(fates := sh.fates + [Dropped(e, StateOf(sh.states, e.task.fiber))]), tid, wk.(pc := Skip));
  }
}
