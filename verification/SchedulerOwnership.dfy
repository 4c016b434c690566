/**
 Mutual exclusion: under the discipline that the scheduler asks of its clients no
 fiber is ever in two workers' hands, and no assertion of fiber.cpp fails.
 */
module SchedulerOwnership {
  import opened Wrappers
  import opened Fibers
  import opened TaskQueue
  import opened Scheduler

  /** The fiber a worker is dealing with, from the pick until it is given away. */
  function PcFiber(pc: Pc): Option<nat> {
    match pc
    case Picked(e) => if e.task.FiberTask? then Some(e.task.fiber) else None
    case Check(f, _) => Some(f)
    case Switch(f, _) => Some(f)
    case Inside(f, _) => Some(f)
    case Leaving(f, _) => Some(f)
    case Left(f, _) => Some(f)
    case After(f, _) => Some(f)
    case Settle(f, _) => Some(f)
    case Requeue(f, _) => Some(f)
    case Park(f, _) => Some(f)
    case Recycle(f) => Some(f)
    case _ => None
  }

  /** The fiber in question is the worker's callback fiber. */
  predicate ViaCb(pc: Pc) {
    match pc
    case Check(_, e) => e.task.CbTask?
    case Switch(_, e) => e.task.CbTask?
    case Inside(_, v) => v
    case Leaving(_, v) => v
    case Left(_, v) => v
    case After(_, v) => v
    case Settle(_, v) => v
    case Requeue(_, v) => v
    case Park(_, v) => v
    case Recycle(_) => true
    case _ => false
  }

  /** In the worker's hand: picked or running, or kept as its callback fiber. */
  predicate Holds(wk: Worker, f: nat) {
    PcFiber(wk.pc) == Some(f) || (wk.cbFiber == Some(f) && !wk.pc.Release?)
  }

  // ---- Client discipline ----

  /**
   schedule(f) is called only for a fiber that is new, parked or running, that has
   no entry, and that is in no worker's hand un-started.
   */
  ghost predicate MaySubmit(s: System, f: nat) {
    && f < |s.sh.states| && s.sh.states[f] in {Init, Hold, Exec} && !QueuedIn(s.sh.queue, f)
    && forall w <- s.workers :: Holds(s.workers[w], f) ==> s.sh.states[f] == Exec
  }

  ghost predicate MayAct(s: System, act: Act) {
    act.Submit? && act.task.Some? && act.task.value.FiberTask? ==> MaySubmit(s, act.task.value.fiber)
  }

  /** A running fiber that has an entry leaves by YieldToHold only. */
  ghost predicate Disciplined(s: System, step: Step)
    requires Enabled(s, step)
  {
    match step
    case UserActs(_, act) => MayAct(s, act)
    case External(act) => MayAct(s, act)
    case UserLeaves(w, exit) => exit == ToHold || !QueuedIn(s.sh.queue, s.workers[w].pc.f)
    case _ => true
  }

  ghost predicate DisciplinedRun(s: System, steps: seq<Step>)
    requires IsRun(s, steps)
    decreases steps
  {
    steps == [] || (Disciplined(s, steps[0]) && DisciplinedRun(Apply(s, steps[0]), steps[1..]))
  }

  // ---- The invariant ----

  /** The states the fiber in question can be in. */
  predicate May(pc: Pc, st: State) {
    match pc
    case Picked(_) => Admits(SwapIn, st)
    case Check(_, _) => Admits(SwapIn, st)
    case Switch(_, _) => Admits(SwapIn, st)
    case Inside(_, _) => st == Exec
    case Leaving(_, _) => st == Ready || Finished(st)
    case Left(_, _) => st == Exec || st == Ready || Finished(st)
    case After(_, _) => st == Exec || st == Ready || Finished(st)
    case Settle(_, _) => st == Exec || Finished(st)
    case Requeue(_, _) => st == Ready
    case Park(_, _) => st == Exec
    case Recycle(_) => Finished(st)
    case _ => false
  }

  predicate IdleOk(wk: Worker) {
    match wk.pc
    case IdleCount => wk.idle == Init || wk.idle == Hold
    case IdleCheck => wk.idle == Init || wk.idle == Hold
    case InIdle => wk.idle == Exec
    case LeftIdle => wk.idle == Exec || wk.idle == Term
    case AfterIdle => wk.idle == Exec || wk.idle == Term
    case Gone => wk.idle == Term
    case _ => wk.idle == Init || wk.idle == Hold || wk.idle == Term
  }

  predicate LocalOk(states: seq<State>, wk: Worker) {
    && (PcFiber(wk.pc).Some? ==>
          var f := PcFiber(wk.pc).value;
          f < |states| && May(wk.pc, states[f]) && (wk.cbFiber == Some(f) <==> ViaCb(wk.pc)))
    && (wk.pc.Release? ==> wk.cbFiber == Some(wk.pc.f))
    && (wk.pc.Prepare? ==> wk.pc.e.task.CbTask?)
    && (wk.cbFiber.Some? && !ViaCb(wk.pc) && !wk.pc.Release? ==>
          wk.cbFiber.value < |states| && states[wk.cbFiber.value] == Init)
    && IdleOk(wk)
  }

  predicate Held(s: System, f: nat) {
    exists w :: w in s.workers && Holds(s.workers[w], f)
  }

  /** A fiber with an entry is unfinished, and whoever holds it is running it. */
  ghost predicate EntryOk(s: System, e: Entry) {
    e.task.FiberTask? ==>
      && e.task.fiber < |s.sh.states| && !Finished(s.sh.states[e.task.fiber])
      && (Held(s, e.task.fiber) ==> s.sh.states[e.task.fiber] == Exec)
  }

  predicate QueuedFree(q: seq<Entry>, f: nat) {
    exists i :: 0 <= i < |q| && q[i].task == FiberTask(f) && q[i].thread == ANY_THREAD
  }

  ghost predicate OneEntryEach(q: seq<Entry>) {
    forall i, j | 0 <= i < j < |q| && q[i].task.FiberTask? :: q[i].task != q[j].task
  }

  ghost predicate OneHolderEach(s: System) {
    forall v, w, f | v in s.workers && w in s.workers && Holds(s.workers[v], f) && Holds(s.workers[w], f) :: v == w
  }

  ghost predicate Accounted(s: System, f: nat) {
    f < |s.sh.states| ==>
      && (s.sh.states[f] == Exec ==> Held(s, f))
      && (s.sh.states[f] == Ready ==> Held(s, f) || QueuedFree(s.sh.queue, f))
  }

  ghost predicate Owned(s: System) {
    && !s.sh.aborted
    && (forall w <- s.workers :: LocalOk(s.sh.states, s.workers[w]))
    && OneHolderEach(s)
    && OneEntryEach(s.sh.queue)
    && (forall e <- s.sh.queue :: EntryOk(s, e))
    && (forall f: nat :: Accounted(s, f))
  }

  // ---- Steps that move no entry ----

  /** What the worker itself knows from the invariant. */
  ghost predicate Knows(sh: Shared, wk: Worker) {
    && !sh.aborted && LocalOk(sh.states, wk)
    && forall f: nat | Holds(wk, f) && QueuedIn(sh.queue, f) :: f < |sh.states| && sh.states[f] == Exec
  }

  /** The worker touches only what it holds and gives away nothing that runs or is ready. */
  ghost predicate Quiet(sh: Shared, wk: Worker, o: Outcome) {
    && o.sh.queue == sh.queue && |o.sh.states| == |sh.states| && !o.sh.aborted
    && LocalOk(o.sh.states, o.wk)
    && (forall f | Holds(o.wk, f) :: Holds(wk, f))
    && (forall f: nat | f < |sh.states| && o.sh.states[f] != sh.states[f] :: Holds(wk, f))
    && (forall f: nat | f < |sh.states| && Holds(wk, f) ::
          && (o.sh.states[f] in {Exec, Ready} ==> Holds(o.wk, f))
          && (QueuedIn(sh.queue, f) ==>
                !Finished(o.sh.states[f]) && (Holds(o.wk, f) ==> o.sh.states[f] == Exec)))
  }

  lemma FetchQuiet(sh: Shared, w: int, wk: Worker)
    requires Knows(sh, wk) && (wk.pc.Picked? || wk.pc.Check? || wk.pc.Switch? || (wk.pc.Prepare? && wk.cbFiber.Some?))
    ensures Quiet(sh, wk, Fetch(sh, w, wk))
  {
  }

  /** A step that writes no fiber state and holds what it held. */
  lemma MoveQuiet(sh: Shared, wk: Worker, o: Outcome)
    requires Knows(sh, wk) && o.sh.queue == sh.queue && o.sh.states == sh.states && !o.sh.aborted
    requires LocalOk(sh.states, o.wk) && o.wk.cbFiber == wk.cbFiber && !o.wk.pc.Release? && !wk.pc.Release?
    requires PcFiber(o.wk.pc) == PcFiber(wk.pc)
    ensures Quiet(sh, wk, o)
  {
  }

  lemma RetireMoveQuiet(sh: Shared, wk: Worker)
    requires Knows(sh, wk) && (wk.pc.Leaving? || wk.pc.Left? || wk.pc.After?)
    ensures Quiet(sh, wk, Retire(sh, wk))
  {
    MoveQuiet(sh, wk, Retire(sh, wk));
  }

  lemma RetireWriteQuiet(sh: Shared, wk: Worker)
    requires Knows(sh, wk) && (wk.pc.Settle? || wk.pc.Park? || wk.pc.Recycle? || wk.pc.Release?)
    ensures Quiet(sh, wk, Retire(sh, wk))
  {
  }

  lemma RestQuiet(sh: Shared, wk: Worker)
    requires Knows(sh, wk) && !BeforeSwitch(wk.pc) && !AfterSwitch(wk.pc) && !wk.pc.Inside?
    ensures Quiet(sh, wk, Rest(sh, wk))
  {
    MoveQuiet(sh, wk, Rest(sh, wk));
  }

  lemma ExitQuiet(sh: Shared, wk: Worker, exit: Exit)
    requires Knows(sh, wk) && wk.pc.Inside?
    requires exit == ToHold || !QueuedIn(sh.queue, wk.pc.f)
    ensures Quiet(sh, wk, Exited(sh, wk, exit))
  {
  }

  lemma OwnedKnows(s: System, w: int)
    requires Owned(s) && w in s.workers
    ensures Knows(s.sh, s.workers[w])
  {
    forall f: nat | Holds(s.workers[w], f) && QueuedIn(s.sh.queue, f)
      ensures f < |s.sh.states| && s.sh.states[f] == Exec
    {
      var i :| 0 <= i < |s.sh.queue| && s.sh.queue[i].task == FiberTask(f);
      assert EntryOk(s, s.sh.queue[i]);
    }
  }

  lemma QuietKeepsLocal(s: System, w: int, o: Outcome)
    requires Owned(s) && w in s.workers && Quiet(s.sh, s.workers[w], o)
    ensures forall v <- Commit(s, w, o).workers :: LocalOk(o.sh.states, Commit(s, w, o).workers[v])
    ensures OneHolderEach(Commit(s, w, o))
  {
    forall v | v in s.workers && v != w
      ensures LocalOk(o.sh.states, s.workers[v])
    {
      var wv := s.workers[v];
      assert LocalOk(s.sh.states, wv);
      assert forall f: nat | f < |s.sh.states| && Holds(wv, f) :: o.sh.states[f] == s.sh.states[f];
    }
  }

  lemma QuietKeepsEntries(s: System, w: int, o: Outcome)
    requires Owned(s) && w in s.workers && Quiet(s.sh, s.workers[w], o)
    ensures forall e <- o.sh.queue :: EntryOk(Commit(s, w, o), e)
  {
    var s' := Commit(s, w, o);
    forall e | e in o.sh.queue && e.task.FiberTask?
      ensures EntryOk(s', e)
    {
      assert EntryOk(s, e);
      var f := e.task.fiber;
      assert QueuedIn(s.sh.queue, f);
      if Held(s', f) {
        var v :| v in s'.workers && Holds(s'.workers[v], f);
        if v != w {
          assert Holds(s.workers[v], f);
        }
      }
    }
  }

  lemma QuietKeepsAccounts(s: System, w: int, o: Outcome, f: nat)
    requires Owned(s) && w in s.workers && Quiet(s.sh, s.workers[w], o)
    ensures Accounted(Commit(s, w, o), f)
  {
    var s' := Commit(s, w, o);
    assert Accounted(s, f);
    if f < |s.sh.states| {
      if Holds(s.workers[w], f) {
        if Holds(o.wk, f) {
          assert s'.workers[w] == o.wk;
        }
      } else if Held(s, f) {
        var v :| v in s.workers && Holds(s.workers[v], f);
        assert v != w && s'.workers[v] == s.workers[v];
      }
    }
  }

  lemma QuietKeeps(s: System, w: int, o: Outcome)
    requires Owned(s) && w in s.workers && Quiet(s.sh, s.workers[w], o)
    ensures Owned(Commit(s, w, o))
  {
    QuietKeepsLocal(s, w, o);
    QuietKeepsEntries(s, w, o);
    forall f: nat
      ensures Accounted(Commit(s, w, o), f)
    {
      QuietKeepsAccounts(s, w, o, f);
    }
  }

  // ---- Picking ----

  lemma InWithout(q: seq<Entry>, k: nat, e: Entry)
    requires k < |q|
    ensures e in Without(q, k) <==> exists i :: 0 <= i < |q| && i != k && q[i] == e
  {
    if i :| 0 <= i < |q| && i != k && q[i] == e {
      assert Without(q, k)[if i < k then i else i - 1] == e;
    }
  }

  lemma PickKeepsEntries(s: System, w: int, o: Outcome, k: nat)
    requires Owned(s) && w in s.workers && k < |s.sh.queue| && Eligible(s.sh.queue[k], w, s.sh.states)
    requires s.workers[w].pc == Loop && o.wk == s.workers[w].(pc := Picked(s.sh.queue[k]))
    requires o.sh.states == s.sh.states && o.sh.queue == Without(s.sh.queue, k) && !o.sh.aborted
    ensures OneEntryEach(o.sh.queue)
    ensures forall e <- o.sh.queue :: EntryOk(Commit(s, w, o), e)
  {
    var s' := Commit(s, w, o);
    forall e | e in o.sh.queue && e.task.FiberTask?
      ensures EntryOk(s', e)
    {
      InWithout(s.sh.queue, k, e);
      assert EntryOk(s, e);
      var f := e.task.fiber;
      if Held(s', f) {
        var v :| v in s'.workers && Holds(s'.workers[v], f);
        assert Holds(s.workers[v], f);
      }
    }
  }

  lemma PickKeepsHolders(s: System, w: int, o: Outcome, k: nat)
    requires Owned(s) && w in s.workers && k < |s.sh.queue| && Eligible(s.sh.queue[k], w, s.sh.states)
    requires s.workers[w].pc == Loop && o.wk == s.workers[w].(pc := Picked(s.sh.queue[k]))
    requires o.sh.states == s.sh.states && o.sh.queue == Without(s.sh.queue, k) && !o.sh.aborted
    ensures forall v <- Commit(s, w, o).workers :: LocalOk(o.sh.states, Commit(s, w, o).workers[v])
    ensures OneHolderEach(Commit(s, w, o))
  {
    var e := s.sh.queue[k];
    assert LocalOk(s.sh.states, s.workers[w]);
    if e.task.FiberTask? {
      assert EntryOk(s, e);
      assert !Held(s, e.task.fiber);
      assert !Holds(s.workers[w], e.task.fiber);
      assert LocalOk(s.sh.states, o.wk);
    }
  }

  lemma PickKeepsAccounts(s: System, w: int, o: Outcome, k: nat, f: nat)
    requires Owned(s) && w in s.workers && k < |s.sh.queue|
    requires s.workers[w].pc == Loop && o.wk == s.workers[w].(pc := Picked(s.sh.queue[k]))
    requires o.sh.states == s.sh.states && o.sh.queue == Without(s.sh.queue, k)
    ensures Accounted(Commit(s, w, o), f)
  {
    var s' := Commit(s, w, o);
    assert Accounted(s, f);
    if Held(s, f) {
      var v :| v in s.workers && Holds(s.workers[v], f);
      assert Holds(s'.workers[v], f);
    } else if QueuedFree(s.sh.queue, f) {
      var i :| 0 <= i < |s.sh.queue| && s.sh.queue[i].task == FiberTask(f) && s.sh.queue[i].thread == ANY_THREAD;
      if i == k {
        assert Holds(s'.workers[w], f);
      } else {
        assert s'.sh.queue[if i < k then i else i - 1] == s.sh.queue[i];
      }
    }
  }

  lemma LoopKeeps(s: System, w: int)
    requires Owned(s) && w in s.workers && s.workers[w].pc == Loop
    ensures Owned(Commit(s, w, Fetch(s.sh, w, s.workers[w])))
  {
    var o := Fetch(s.sh, w, s.workers[w]);
    var k := FirstEligible(s.sh.queue, w, s.sh.states);
    if k < |s.sh.queue| {
      PickKeepsEntries(s, w, o, k);
      PickKeepsHolders(s, w, o, k);
      forall f: nat
        ensures Accounted(Commit(s, w, o), f)
      {
        PickKeepsAccounts(s, w, o, k, f);
      }
    } else {
      OwnedKnows(s, w);
      MoveQuiet(s.sh, s.workers[w], o);
      QuietKeeps(s, w, o);
    }
  }

  // ---- Making fibers ----

  lemma GrowKeeps(s: System)
    requires Owned(s)
    ensures Owned(s.(sh := s.sh.(states := s.sh.states + [Init])))
  {
    var s' := s.(sh := s.sh.(states := s.sh.states + [Init]));
    forall w <- s'.workers
      ensures LocalOk(s'.sh.states, s'.workers[w])
    {
      assert LocalOk(s.sh.states, s.workers[w]);
    }
    forall e | e in s'.sh.queue
      ensures EntryOk(s', e)
    {
      assert EntryOk(s, e);
      assert e.task.FiberTask? && Held(s', e.task.fiber) ==> Held(s, e.task.fiber);
    }
    forall f: nat
      ensures Accounted(s', f)
    {
      assert Accounted(s, f);
      assert Held(s, f) ==> Held(s', f);
    }
  }

  lemma NobodyHoldsNew(s: System, f: nat)
    requires Owned(s) && f >= |s.sh.states|
    ensures !Held(s, f)
  {
    forall w | w in s.workers
      ensures !Holds(s.workers[w], f)
    {
      assert LocalOk(s.sh.states, s.workers[w]);
    }
  }

  /** The worker makes its callback fiber: a new fiber comes into being in its hand. */
  lemma PrepareKeeps(s: System, w: int)
    requires Owned(s) && w in s.workers && s.workers[w].pc.Prepare? && s.workers[w].cbFiber.None?
    ensures Owned(Commit(s, w, Fetch(s.sh, w, s.workers[w])))
  {
    var f := |s.sh.states|;
    var o := Fetch(s.sh, w, s.workers[w]);
    var m := s.(sh := s.sh.(states := s.sh.states + [Init]));
    var s' := Commit(s, w, o);
    GrowKeeps(s);
    NobodyHoldsNew(s, f);
    assert s'.sh == m.sh;
    assert forall v | v in m.workers :: !Holds(s.workers[v], f);
    assert LocalOk(s.sh.states, s.workers[w]);
    assert LocalOk(m.sh.states, o.wk);
    forall e | e in s'.sh.queue && e.task.FiberTask?
      ensures EntryOk(s', e)
    {
      assert EntryOk(s, e) && EntryOk(m, e);
      if Held(s', e.task.fiber) {
        var v :| v in s'.workers && Holds(s'.workers[v], e.task.fiber);
        assert Holds(m.workers[v], e.task.fiber);
      }
    }
    forall g: nat
      ensures Accounted(s', g)
    {
      assert Accounted(m, g);
      if Held(m, g) {
        var v :| v in m.workers && Holds(m.workers[v], g);
        assert Holds(s'.workers[v], g);
      }
    }
  }

  // ---- Pushing ----

  lemma PushKeepsEntry(s: System, s': System, f: nat, thread: int)
    requires Owned(s) && f < |s.sh.states| && !Finished(s.sh.states[f]) && !QueuedIn(s.sh.queue, f)
    requires s'.sh == Push(s.sh, FiberTask(f), thread)
    requires forall g :: Held(s', g) ==> Held(s, g)
    requires Held(s', f) ==> s.sh.states[f] == Exec
    ensures OneEntryEach(s'.sh.queue) && forall e <- s'.sh.queue :: EntryOk(s', e)
  {
    var e' := Entry(FiberTask(f), thread, s.sh.accepted);
    forall e | e in s'.sh.queue && e.task.FiberTask?
      ensures EntryOk(s', e)
    {
      if e in s.sh.queue {
        assert EntryOk(s, e);
      } else {
        assert e == e';
      }
    }
    forall i, j | 0 <= i < j < |s'.sh.queue| && s'.sh.queue[i].task.FiberTask?
      ensures s'.sh.queue[i].task != s'.sh.queue[j].task
    {
      assert s'.sh.queue[i] == s.sh.queue[i];
      if j == |s.sh.queue| {
        assert s'.sh.queue[j] == e';
      }
    }
  }

  lemma PushAccounts(s: System, s': System, task: Task, thread: int, f: nat)
    requires Owned(s) && s'.sh == Push(s.sh, task, thread)
    requires Held(s, f) ==> Held(s', f) || (task == FiberTask(f) && thread == ANY_THREAD && s.sh.states[f] == Ready)
    requires task == FiberTask(f) ==> f < |s.sh.states|
    ensures Accounted(s', f)
  {
    assert Accounted(s, f);
    if QueuedFree(s.sh.queue, f) {
      var i :| 0 <= i < |s.sh.queue| && s.sh.queue[i].task == FiberTask(f) && s.sh.queue[i].thread == ANY_THREAD;
      assert s'.sh.queue[i] == s.sh.queue[i];
    }
    assert s'.sh.queue[|s.sh.queue|] == Entry(task, thread, s.sh.accepted);
  }

  lemma RequeueKeeps(s: System, w: int)
    requires Owned(s) && w in s.workers && s.workers[w].pc.Requeue?
    ensures Owned(Commit(s, w, Retire(s.sh, s.workers[w])))
  {
    var wk := s.workers[w];
    var o := Retire(s.sh, wk);
    var s' := Commit(s, w, o);
    var f := wk.pc.f;
    assert LocalOk(s.sh.states, wk) && Holds(wk, f);
    OwnedKnows(s, w);
    assert !QueuedIn(s.sh.queue, f);
    assert forall g: nat | Holds(o.wk, g) :: Holds(wk, g);
    forall g: nat
      ensures Held(s', g) ==> Held(s, g) && g != f
      ensures Accounted(s', g)
    {
      if Held(s', g) {
        var v :| v in s'.workers && Holds(s'.workers[v], g);
        assert Holds(s.workers[v], g);
      }
      if Held(s, g) && g != f {
        var v :| v in s.workers && Holds(s.workers[v], g);
        assert Holds(s'.workers[v], g);
      }
      PushAccounts(s, s', FiberTask(f), ANY_THREAD, g);
    }
    PushKeepsEntry(s, s', f, ANY_THREAD);
  }

  lemma ActKeeps(s: System, act: Act)
    requires Owned(s) && Names(s.sh, act) && MayAct(s, act)
    ensures Owned(s.(sh := Acted(s.sh, act)))
  {
    var s' := s.(sh := Acted(s.sh, act));
    match act
    case MakeFiber => GrowKeeps(s);
    case Submit(task, thread) =>
      if task.Some? {
        assert s'.workers == s.workers;
        assert forall g :: Held(s', g) <==> Held(s, g);
        if task.value.FiberTask? {
          var f := task.value.fiber;
          assert Held(s, f) ==> s.sh.states[f] == Exec;
          PushKeepsEntry(s, s', f, thread);
        } else {
          forall e | e in s'.sh.queue && e.task.FiberTask?
            ensures EntryOk(s', e)
          {
            assert EntryOk(s, e);
          }
        }
        forall g: nat
          ensures Accounted(s', g)
        {
          PushAccounts(s, s', task.value, thread, g);
        }
      }
  }

  // ---- All steps ----

  lemma AdvanceKeeps(s: System, w: int)
    requires Owned(s) && Enabled(s, Advance(w))
    ensures Owned(Apply(s, Advance(w)))
  {
    var wk := s.workers[w];
    OwnedKnows(s, w);
    if wk.pc == Loop {
      LoopKeeps(s, w);
    } else if wk.pc.Prepare? && wk.cbFiber.None? {
      PrepareKeeps(s, w);
    } else if wk.pc.Requeue? {
      RequeueKeeps(s, w);
    } else {
      if BeforeSwitch(wk.pc) { FetchQuiet(s.sh, w, wk); }
      else if wk.pc.Leaving? || wk.pc.Left? || wk.pc.After? { RetireMoveQuiet(s.sh, wk); }
      else if AfterSwitch(wk.pc) { RetireWriteQuiet(s.sh, wk); }
      else { RestQuiet(s.sh, wk); }
      QuietKeeps(s, w, Advanced(s.sh, w, wk));
    }
  }

  lemma FlagsKeep(s: System, s': System)
    requires Owned(s) && s'.workers == s.workers && !s'.sh.aborted
    requires s'.sh.states == s.sh.states && s'.sh.queue == s.sh.queue
    ensures Owned(s')
  {
    forall e <- s'.sh.queue
      ensures EntryOk(s', e)
    {
      assert EntryOk(s, e);
      assert e.task.FiberTask? && Held(s', e.task.fiber) ==> Held(s, e.task.fiber);
    }
    forall f: nat
      ensures Accounted(s', f)
    {
      assert Accounted(s, f);
      assert Held(s, f) ==> Held(s', f);
    }
  }

  lemma StepKeeps(s: System, step: Step)
    requires Owned(s) && Enabled(s, step) && Disciplined(s, step)
    ensures Owned(Apply(s, step))
  {
    match step
    case Advance(w) => AdvanceKeeps(s, w);
    case UserActs(_, act) => ActKeeps(s, act);
    case External(act) => ActKeeps(s, act);
    case UserLeaves(w, exit) =>
      OwnedKnows(s, w);
      ExitQuiet(s.sh, s.workers[w], exit);
      QuietKeeps(s, w, Exited(s.sh, s.workers[w], exit));
    case _ => FlagsKeep(s, Apply(s, step));
  }

  lemma InitiallyOwned(s: System)
    requires Initial(s)
    ensures Owned(s)
  {
    assert forall w <- s.workers :: LocalOk(s.sh.states, s.workers[w]);
  }

  lemma {:induction false} OwnedAlong(s: System, steps: seq<Step>)
    requires Owned(s) && IsRun(s, steps) && DisciplinedRun(s, steps)
    ensures Owned(Final(s, steps))
    decreases steps
  {
    if steps != [] {
      StepKeeps(s, steps[0]);
      OwnedAlong(Apply(s, steps[0]), steps[1..]);
    }
  }

  /**
   Mutual exclusion: for any number of workers and any interleaving, no assertion
   of fiber.cpp has failed, no fiber is in the hands of two workers, and a worker
   about to execute the assertion of SwapIn finds a fiber that may be entered.
   */
  lemma MutualExclusion(s: System, steps: seq<Step>)
    requires Initial(s) && IsRun(s, steps) && DisciplinedRun(s, steps)
    ensures var t := Final(s, steps);
      && !t.sh.aborted
      && (forall v, w, f | v in t.workers && w in t.workers && Holds(t.workers[v], f) && Holds(t.workers[w], f) ::
            v == w)
      && (forall w <- t.workers | t.workers[w].pc.Check? || t.workers[w].pc.Switch? ::
            Admits(SwapIn, StateOf(t.sh.states, t.workers[w].pc.f)))
  {
    InitiallyOwned(s);
    OwnedAlong(s, steps);
    var t := Final(s, steps);
    forall w <- t.workers | t.workers[w].pc.Check? || t.workers[w].pc.Switch?
      ensures Admits(SwapIn, StateOf(t.sh.states, t.workers[w].pc.f))
    {
      assert LocalOk(t.sh.states, t.workers[w]);
    }
  }

  /**
   The locals of run are always legal: the callback fiber is absent or new at loop
   head and resettable where it is reset, the idle fiber can be entered where it
   is, and on leaving run both satisfy the assertions of their destructors.
   */
  lemma WorkerLocalsLegal(s: System, steps: seq<Step>, w: int)
    requires Initial(s) && IsRun(s, steps) && DisciplinedRun(s, steps)
    requires w in Final(s, steps).workers
    ensures var t := Final(s, steps); var wk := t.workers[w];
      && (wk.pc == Loop && wk.cbFiber.Some? ==> StateOf(t.sh.states, wk.cbFiber.value) == Init)
      && (wk.pc.Prepare? && wk.cbFiber.Some? ==> Admits(Reset, StateOf(t.sh.states, wk.cbFiber.value)))
      && (wk.pc.Recycle? ==> Admits(Reset, StateOf(t.sh.states, wk.pc.f)))
      && (wk.pc == IdleCheck ==> Admits(SwapIn, wk.idle))
      && (wk.pc == Gone ==> Destructible(wk.idle))
      && (wk.pc == Gone && wk.cbFiber.Some? ==> Destructible(StateOf(t.sh.states, wk.cbFiber.value)))
  {
    InitiallyOwned(s);
    OwnedAlong(s, steps);
    assert LocalOk(Final(s, steps).sh.states, Final(s, steps).workers[w]);
  }

  /** What switchTo does, schedule itself and then yield to hold, keeps the discipline. */
  lemma SwitchToIsDisciplined(s: System, w: int, thread: int)
    requires Owned(s) && w in s.workers && s.workers[w].pc.Inside?
    requires !QueuedIn(s.sh.queue, s.workers[w].pc.f)
    ensures var f := s.workers[w].pc.f;
      var steps := [UserActs(w, Submit(Some(FiberTask(f)), thread)), UserLeaves(w, ToHold)];
      IsRun(s, steps) && DisciplinedRun(s, steps)
  {
    var f := s.workers[w].pc.f;
    assert LocalOk(s.sh.states, s.workers[w]);
    var s1 := UserActs(w, Submit(Some(FiberTask(f)), thread));
    var s2 := UserLeaves(w, ToHold);
    var steps := [s1, s2];
    assert steps[1..] == [s2] && steps[1..][1..] == [];
    var t := Apply(s, s1);
    assert Enabled(t, s2);
    assert IsRun(Apply(t, s2), []);
    assert IsRun(t, [s2]) && DisciplinedRun(t, [s2]);
  }
}
