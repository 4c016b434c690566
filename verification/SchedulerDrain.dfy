/**
 No unpinned task is abandoned: stop lets every worker leave its loop although
 stopping() can be true while a worker still holds a ready fiber.
 */
module SchedulerDrain {
  import opened Wrappers
  import opened Fibers
  import opened TaskQueue
  import opened Scheduler
  import opened SchedulerAccounting
  import opened SchedulerOwnership

  /** The worker will scan the queue at least once more before leaving run. */
  predicate WillScan(wk: Worker) {
    !wk.pc.Gone? && !(wk.pc.NoPick? && wk.idle == Term)
  }

  predicate FreeEntry(q: seq<Entry>) {
    exists i :: 0 <= i < |q| && q[i].thread == ANY_THREAD
  }

  predicate Watched(s: System) {
    exists w :: w in s.workers && WillScan(s.workers[w])
  }

  predicate HasWorker(s: System) {
    exists w :: w in s.workers
  }

  /** Whoever has seen stopping() true saw both flags up, and they stay up. */
  ghost predicate Drains(s: System) {
    && (FreeEntry(s.sh.queue) ==> Watched(s))
    && (forall w <- s.workers :: s.workers[w].idle == Term ==> s.sh.autoStop && s.sh.stopping)
    && HasWorker(s)
  }

  /** No other thread schedules anything once stop has raised m_stopping. */
  predicate NoLateScheduling(s: System, step: Step) {
    step.External? && step.act.Submit? && step.act.task.Some? ==> !s.sh.stopping
  }

  ghost predicate ClosedRun(s: System, steps: seq<Step>)
    requires IsRun(s, steps)
    decreases steps
  {
    steps == [] || (NoLateScheduling(s, steps[0]) && ClosedRun(Apply(s, steps[0]), steps[1..]))
  }

  /** What one step of a worker contributes. */
  ghost predicate KeepsWatch(sh: Shared, wk: Worker, o: Outcome) {
    && (WillScan(wk) && !(wk.pc.Loop? && o.wk.pc.NoPick?) ==> WillScan(o.wk))
    && (FreeEntry(o.sh.queue) ==> FreeEntry(sh.queue) || WillScan(o.wk))
    && o.sh.autoStop == sh.autoStop && o.sh.stopping == sh.stopping
    && (o.wk.idle == Term ==> wk.idle == Term || (sh.autoStop && sh.stopping))
  }

  lemma FetchWatch(sh: Shared, w: int, wk: Worker)
    requires BeforeSwitch(wk.pc)
    ensures KeepsWatch(sh, wk, Fetch(sh, w, wk))
  {
  }

  lemma RetireWatch(sh: Shared, wk: Worker)
    requires AfterSwitch(wk.pc)
    ensures KeepsWatch(sh, wk, Retire(sh, wk))
  {
  }

  lemma RestWatch(sh: Shared, wk: Worker)
    requires !BeforeSwitch(wk.pc) && !AfterSwitch(wk.pc)
    ensures KeepsWatch(sh, wk, Rest(sh, wk))
  {
  }

  /** A worker that finds nothing while an unpinned entry is queued is not the last one. */
  lemma EmptyHandedScan(s: System, w: int) returns (v: int)
    requires Owned(s) && w in s.workers && s.workers[w].pc == Loop && FreeEntry(s.sh.queue)
    requires FirstEligible(s.sh.queue, w, s.sh.states) == |s.sh.queue|
    ensures v in s.workers && v != w && WillScan(s.workers[v])
  {
    var i :| 0 <= i < |s.sh.queue| && s.sh.queue[i].thread == ANY_THREAD;
    var e := s.sh.queue[i];
    assert !Eligible(e, w, s.sh.states);
    var f := e.task.fiber;
    assert EntryOk(s, e) && Accounted(s, f);
    v :| v in s.workers && Holds(s.workers[v], f);
    assert LocalOk(s.sh.states, s.workers[v]) && LocalOk(s.sh.states, s.workers[w]);
  }

  lemma CommitDrains(s: System, w: int, o: Outcome)
    requires Drains(s) && w in s.workers && KeepsWatch(s.sh, s.workers[w], o)
    requires s.workers[w].pc.Loop? && o.wk.pc.NoPick? && FreeEntry(s.sh.queue) ==>
      exists v :: v in s.workers && v != w && WillScan(s.workers[v])
    ensures Drains(Commit(s, w, o))
  {
    var s' := Commit(s, w, o);
    assert s'.workers[w] == o.wk;
    if FreeEntry(o.sh.queue) && !WillScan(o.wk) {
      if s.workers[w].pc.Loop? && o.wk.pc.NoPick? {
        var v :| v in s.workers && v != w && WillScan(s.workers[v]);
        assert s'.workers[v] == s.workers[v];
      } else {
        var v :| v in s.workers && WillScan(s.workers[v]);
        assert s'.workers[v] == s.workers[v];
      }
    }
  }

  lemma ActDrains(s: System, act: Act)
    requires Drains(s)
    requires act.Submit? && act.task.Some? ==> Watched(s)
    ensures Drains(s.(sh := Acted(s.sh, act)))
  {
    var s' := s.(sh := Acted(s.sh, act));
    assert s'.workers == s.workers;
    assert Watched(s) ==> Watched(s');
  }

  lemma AdvanceDrains(s: System, w: int)
    requires Owned(s) && Drains(s) && Enabled(s, Advance(w))
    ensures Drains(Apply(s, Advance(w)))
  {
    var wk := s.workers[w];
    var o := Advanced(s.sh, w, wk);
    if BeforeSwitch(wk.pc) { FetchWatch(s.sh, w, wk); }
    else if AfterSwitch(wk.pc) { RetireWatch(s.sh, wk); }
    else { RestWatch(s.sh, wk); }
    if wk.pc.Loop? && o.wk.pc.NoPick? && FreeEntry(s.sh.queue) {
      ScanFoundNothing(s, w);
      var v := EmptyHandedScan(s, w);
    }
    CommitDrains(s, w, o);
  }

  lemma ScanFoundNothing(s: System, w: int)
    requires w in s.workers && s.workers[w].pc == Loop && Advanced(s.sh, w, s.workers[w]).wk.pc.NoPick?
    ensures FirstEligible(s.sh.queue, w, s.sh.states) == |s.sh.queue|
  {
  }

  /** Before stop nobody can have left. */
  lemma WatchedUntilStop(s: System)
    requires Owned(s) && Drains(s) && !s.sh.stopping
    ensures Watched(s)
  {
    var w :| w in s.workers;
    assert LocalOk(s.sh.states, s.workers[w]);
    assert WillScan(s.workers[w]);
  }

  lemma ExitDrains(s: System, w: int, exit: Exit)
    requires Drains(s) && w in s.workers && s.workers[w].pc.Inside?
    ensures Drains(Commit(s, w, Exited(s.sh, s.workers[w], exit)))
  {
    CommitDrains(s, w, Exited(s.sh, s.workers[w], exit));
  }

  lemma UserActDrains(s: System, w: int, act: Act)
    requires Drains(s) && w in s.workers && s.workers[w].pc.Inside?
    ensures Drains(s.(sh := Acted(s.sh, act)))
  {
    assert WillScan(s.workers[w]);
    ActDrains(s, act);
  }

  lemma ExternalDrains(s: System, act: Act)
    requires Owned(s) && Drains(s) && (act.Submit? && act.task.Some? ==> !s.sh.stopping)
    ensures Drains(s.(sh := Acted(s.sh, act)))
  {
    if !s.sh.stopping {
      WatchedUntilStop(s);
    }
    ActDrains(s, act);
  }

  lemma FlagDrains(s: System, s': System)
    requires Drains(s) && s'.workers == s.workers && s'.sh.queue == s.sh.queue
    requires (s.sh.autoStop ==> s'.sh.autoStop) && (s.sh.stopping ==> s'.sh.stopping)
    ensures Drains(s')
  {
    assert Watched(s) ==> Watched(s');
    assert HasWorker(s');
  }

  lemma StepDrains(s: System, step: Step)
    requires Owned(s) && Drains(s) && Enabled(s, step) && NoLateScheduling(s, step)
    ensures Drains(Apply(s, step))
  {
    match step
    case Advance(w) => AdvanceDrains(s, w);
    case UserLeaves(w, exit) => ExitDrains(s, w, exit);
    case UserActs(w, act) => UserActDrains(s, w, act);
    case External(act) => ExternalDrains(s, act);
    case _ => FlagDrains(s, Apply(s, step));
  }

  lemma {:induction false} DrainsAlong(s: System, steps: seq<Step>)
    requires Owned(s) && Drains(s) && IsRun(s, steps) && DisciplinedRun(s, steps) && ClosedRun(s, steps)
    ensures Owned(Final(s, steps)) && Drains(Final(s, steps))
    decreases steps
  {
    if steps != [] {
      StepKeeps(s, steps[0]);
      StepDrains(s, steps[0]);
      DrainsAlong(Apply(s, steps[0]), steps[1..]);
    }
  }

  /**
   When every worker has left run, the queue holds no unpinned entry and no fiber
   is ready or running: everything that any thread could run has been run.
   */
  lemma NothingAbandoned(s: System, steps: seq<Step>)
    requires Initial(s) && HasWorker(s)
    requires IsRun(s, steps) && DisciplinedRun(s, steps) && ClosedRun(s, steps)
    requires forall w <- Final(s, steps).workers :: Final(s, steps).workers[w].pc == Gone
    ensures forall e <- Final(s, steps).sh.queue :: e.thread != ANY_THREAD
    ensures forall st <- Final(s, steps).sh.states :: st != Ready && st != Exec
  {
    InitiallyOwned(s);
    DrainsAlong(s, steps);
    var t := Final(s, steps);
    assert !Watched(t);
    forall f: nat | f < |t.sh.states|
      ensures t.sh.states[f] != Ready && t.sh.states[f] != Exec
    {
      assert Accounted(t, f);
      if Held(t, f) {
        var w :| w in t.workers && Holds(t.workers[w], f);
        assert LocalOk(t.sh.states, t.workers[w]);
      }
    }
  }

  // ---- Every accepted entry has run ----

  predicate AllRan(fates: seq<Fate>) {
    forall d <- fates :: d.Ran?
  }

  /** Under the discipline a picked fiber is never a finished one, so nothing is dropped. */
  lemma StepRuns(s: System, step: Step)
    requires Owned(s) && Enabled(s, step) && AllRan(s.sh.fates)
    ensures AllRan(Apply(s, step).sh.fates)
  {
    match step
    case Advance(w) =>
      var wk := s.workers[w];
      assert LocalOk(s.sh.states, wk);
      if AfterSwitch(wk.pc) { RetireHandles(s.sh, wk); }
      else if !BeforeSwitch(wk.pc) { RestHandles(s.sh, wk); }
    case UserLeaves(w, exit) => ExitHandles(s.sh, s.workers[w], exit);
    case _ =>
  }

  lemma {:induction false} AllRanAlong(s: System, steps: seq<Step>)
    requires Owned(s) && AllRan(s.sh.fates) && IsRun(s, steps) && DisciplinedRun(s, steps)
    ensures AllRan(Final(s, steps).sh.fates)
    decreases steps
  {
    if steps != [] {
      StepKeeps(s, steps[0]);
      StepRuns(s, steps[0]);
      AllRanAlong(Apply(s, steps[0]), steps[1..]);
    }
  }

  /**
   The whole promise of stop: when every worker has left run, each entry ever
   accepted has been run exactly once, or is still queued and pinned to a thread.
   */
  lemma EverythingRanOnce(s: System, steps: seq<Step>, t: nat)
    requires Initial(s) && HasWorker(s)
    requires IsRun(s, steps) && DisciplinedRun(s, steps) && ClosedRun(s, steps)
    requires forall w <- Final(s, steps).workers :: Final(s, steps).workers[w].pc == Gone
    requires t < Final(s, steps).sh.accepted
    ensures var sh := Final(s, steps).sh;
      || (exists i :: 0 <= i < |sh.queue| && sh.queue[i].ticket == t && sh.queue[i].thread != ANY_THREAD)
      || (exists i :: 0 <= i < |sh.fates| && sh.fates[i].Ran? && sh.fates[i].entry.ticket == t)
    ensures var fates := Final(s, steps).sh.fates;
      forall i, j | 0 <= i < j < |fates| :: fates[i].entry.ticket != fates[j].entry.ticket
  {
    var f := Final(s, steps);
    TaskConservation(s, steps);
    NothingAbandoned(s, steps);
    InitiallyOwned(s);
    AllRanAlong(s, steps);
    assert OnePlace(f, t);
    assert !Carried(f, t);
    if Queued(f, t) {
      var i :| 0 <= i < |f.sh.queue| && f.sh.queue[i].ticket == t;
      assert f.sh.queue[i] in f.sh.queue;
    } else {
      var i :| 0 <= i < |f.sh.fates| && f.sh.fates[i].entry.ticket == t;
      assert f.sh.fates[i] in f.sh.fates;
    }
  }
}
