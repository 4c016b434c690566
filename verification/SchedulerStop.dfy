/**
 When stop finishes: how long stopping() stays true once it is, and exactly in which
 states all workers can still leave their loops.
 */
module SchedulerStop {
  import opened Wrappers
  import opened Fibers
  import opened TaskQueue
  import opened Scheduler
  import opened SchedulerAccounting
  import opened SchedulerOwnership
  import opened SchedulerDrain

  // ---- Disciplined closed runs ----

  ghost predicate ClosedAndDisciplined(s: System, steps: seq<Step>) {
    IsRun(s, steps) && DisciplinedRun(s, steps) && ClosedRun(s, steps)
  }

  lemma {:induction false} Extend(s: System, steps: seq<Step>, step: Step)
    requires IsRun(s, steps) && Enabled(Final(s, steps), step)
    ensures IsRun(s, steps + [step]) && Final(s, steps + [step]) == Apply(Final(s, steps), step)
    ensures DisciplinedRun(s, steps) && Disciplined(Final(s, steps), step) ==> DisciplinedRun(s, steps + [step])
    ensures ClosedRun(s, steps) && NoLateScheduling(Final(s, steps), step) ==> ClosedRun(s, steps + [step])
    decreases steps
  {
    RunExtend(s, steps, step);
    if steps == [] {
      assert steps + [step] == [step] && [step][1..] == [];
      assert IsRun(Apply(s, step), []);
    } else {
      Extend(Apply(s, steps[0]), steps[1..], step);
      assert (steps + [step])[1..] == steps[1..] + [step];
    }
  }

  /** What every state on a disciplined closed run has. */
  ghost predicate Good(s: System) {
    Owned(s) && Drains(s) && CountersExact(s)
  }

  lemma {:induction false} GoodAlong(s: System, steps: seq<Step>)
    requires Good(s) && ClosedAndDisciplined(s, steps)
    ensures Good(Final(s, steps))
    decreases steps
  {
    DrainsAlong(s, steps);
    CountersAlong(s, steps);
  }

  lemma InitiallyGood(s: System)
    requires Initial(s) && HasWorker(s)
    ensures Good(s)
  {
    InitiallyOwned(s);
    ExactCounters(s, []);
  }

  // ---- How long stopping() stays true ----

  /** The worker is about to queue a ready fiber that it no longer counts. */
  predicate ReadyInHand(sh: Shared, wk: Worker) {
    wk.pc.Requeue? || (wk.pc.After? && StateOf(sh.states, wk.pc.f) == Ready)
  }

  ghost predicate NoneReadyInHand(s: System) {
    forall w <- s.workers :: !ReadyInHand(s.sh, s.workers[w])
  }

  lemma NobodyCounted(s: System, w: int)
    requires CountersExact(s) && s.sh.active == 0 && w in s.workers
    ensures !Counted(s.workers[w].pc)
  {
    assert Busy(s) == {};
    assert w !in Busy(s);
  }

  /** Once true, stopping() becomes false by one kind of step only: a worker queues a ready fiber again. */
  lemma StoppingStep(s: System, step: Step)
    requires CountersExact(s) && Enabled(s, step) && NoLateScheduling(s, step) && StoppingNow(s.sh)
    ensures !StoppingNow(Apply(s, step).sh) <==> step.Advance? && s.workers[step.w].pc.Requeue?
  {
    match step
    case Advance(w) => NobodyCounted(s, w);
    case UserActs(w, _) => NobodyCounted(s, w);
    case UserLeaves(w, _) => NobodyCounted(s, w);
    case _ =>
  }

  lemma NoneReadyStep(s: System, step: Step)
    requires CountersExact(s) && Enabled(s, step) && NoLateScheduling(s, step) && StoppingNow(s.sh)
    requires NoneReadyInHand(s)
    ensures NoneReadyInHand(Apply(s, step)) && StoppingNow(Apply(s, step).sh)
  {
    StoppingStep(s, step);
    match step
    case Advance(w) => NobodyCounted(s, w);
    case UserActs(w, _) => NobodyCounted(s, w);
    case UserLeaves(w, _) => NobodyCounted(s, w);
    case _ =>
  }

  lemma {:induction false} StoppingStays(s: System, steps: seq<Step>)
    requires CountersExact(s) && ClosedAndDisciplined(s, steps) && StoppingNow(s.sh) && NoneReadyInHand(s)
    ensures StoppingNow(Final(s, steps).sh)
    decreases steps
  {
    if steps != [] {
      NoneReadyStep(s, steps[0]);
      CountersStay(s, steps[0]);
      StoppingStays(Apply(s, steps[0]), steps[1..]);
    }
  }

  /** A worker with a ready fiber in hand goes on to queue it. */
  lemma ReadyIsQueued(s: System, w: int) returns (steps: seq<Step>)
    requires !s.sh.aborted && w in s.workers && ReadyInHand(s.sh, s.workers[w])
    ensures ClosedAndDisciplined(s, steps) && !StoppingNow(Final(s, steps).sh)
  {
    steps := [];
    if s.workers[w].pc.After? {
      Extend(s, steps, Advance(w));
      steps := steps + [Advance(w)];
    }
    var t := Final(s, steps);
    assert t.workers[w].pc.Requeue?;
    Extend(s, steps, Advance(w));
    steps := steps + [Advance(w)];
    assert Final(s, steps).sh.queue != [];
  }

  /**
   stopping() is stable exactly where no ready fiber is in hand: in a state of a
   disciplined closed run in which it is true, it stays true in every continuation
   if and only if no worker is between the decrement and the push of a ready fiber.
   */
  lemma StoppingStableIff(s0: System, steps: seq<Step>)
    requires Initial(s0) && ClosedAndDisciplined(s0, steps) && StoppingNow(Final(s0, steps).sh)
    ensures var s := Final(s0, steps);
      (forall more | ClosedAndDisciplined(s, more) :: StoppingNow(Final(s, more).sh)) <==> NoneReadyInHand(s)
  {
    var s := Final(s0, steps);
    ExactCounters(s0, []);
    CountersAlong(s0, steps);
    InitiallyOwned(s0);
    OwnedAlong(s0, steps);
    if NoneReadyInHand(s) {
      forall more | ClosedAndDisciplined(s, more)
        ensures StoppingNow(Final(s, more).sh)
      {
        StoppingStays(s, more);
      }
    } else {
      var w :| w in s.workers && ReadyInHand(s.sh, s.workers[w]);
      var more := ReadyIsQueued(s, w);
    }
  }

  // ---- What stop waits for ----

  /** Nobody will ever be allowed to run the entry. */
  predicate Doomed(s: System, e: Entry) {
    && e in s.sh.queue && e.thread != ANY_THREAD
    && (e.thread in s.workers ==> !WillScan(s.workers[e.thread]))
  }

  ghost predicate NoneDoomed(s: System) {
    forall e <- s.sh.queue :: !Doomed(s, e)
  }

  /** Every worker has left its loop or has seen its idle fiber end. */
  ghost predicate AllEnding(s: System) {
    forall w <- s.workers :: s.workers[w].pc == Gone || s.workers[w].idle == Term
  }

  ghost predicate AllGone(s: System) {
    forall w <- s.workers :: s.workers[w].pc == Gone
  }

  ghost predicate Goes(s: System, t: System) {
    exists steps :: ClosedAndDisciplined(s, steps) && Final(s, steps) == t
  }

  /** The join in stop can return. */
  ghost predicate CanFinish(s: System) {
    exists t :: Goes(s, t) && AllGone(t)
  }

  // ---- A doomed entry blocks ----

  lemma DoomedStep(s: System, step: Step, e: Entry)
    requires Doomed(s, e) && Enabled(s, step)
    ensures Doomed(Apply(s, step), e)
    ensures forall w <- s.workers :: s.workers[w].idle != Term ==> Apply(s, step).workers[w].idle != Term
  {
    match step
    case Advance(w) =>
      var wk := s.workers[w];
      var k := FirstEligible(s.sh.queue, w, s.sh.states);
      if wk.pc == Loop && k < |s.sh.queue| {
        InWithout(s.sh.queue, k, e);
      } else if BeforeSwitch(wk.pc) {
      } else if AfterSwitch(wk.pc) {
      } else {
        assert s.sh.queue != [];
      }
    case _ =>
  }

  /**
   Whatever the clients do from then on, an entry pinned to no worker, or to one
   that will not scan again, stays queued, and no worker whose idle fiber has not
   ended yet ever leaves: the join in stop waits forever.
   */
  lemma {:induction false} DoomedBlocksStop(s: System, steps: seq<Step>, e: Entry, w: int)
    requires Doomed(s, e) && IsRun(s, steps) && w in s.workers && s.workers[w].idle != Term && s.workers[w].pc != Gone
    ensures e in Final(s, steps).sh.queue
    ensures w in Final(s, steps).workers && Final(s, steps).workers[w].pc != Gone
    decreases steps
  {
    if steps != [] {
      DoomedStep(s, steps[0], e);
      DoomedBlocksStop(Apply(s, steps[0]), steps[1..], e, w);
    }
  }

  // ---- Steps towards the end ----

  /** Steps that are disciplined and closed wherever they can be taken. */
  predicate Chosen(step: Step) {
    match step
    case Advance(_) => true
    case UserLeaves(_, exit) => exit == ToHold
    case UserActs(_, act) => act.Submit? && act.task.Some? && act.task.value.CbTask?
    case External(_) => false
    case _ => true
  }

  lemma Stay(s: System)
    ensures Goes(s, s)
  {
    assert ClosedAndDisciplined(s, []) && Final(s, []) == s;
  }

  lemma Move(s0: System, s: System, step: Step)
    requires Goes(s0, s) && Good(s) && Enabled(s, step) && Chosen(step)
    ensures Goes(s0, Apply(s, step)) && Good(Apply(s, step))
  {
    var steps :| ClosedAndDisciplined(s0, steps) && Final(s0, steps) == s;
    Extend(s0, steps, step);
    StepKeeps(s, step);
    StepDrains(s, step);
    CountersStay(s, step);
  }

  /** How many steps a worker is at most away from its next scan, if its code yields at once. */
  function Rank(pc: Pc): nat {
    match pc
    case Picked(_) => 10
    case Prepare(_) => 9
    case Check(_, _) => 8
    case Switch(_, _) => 7
    case Inside(_, _) => 6
    case Leaving(_, _) => 6
    case Left(_, _) => 5
    case After(_, _) => 4
    case Settle(_, _) => 3
    case Requeue(_, _) => 2
    case Park(_, _) => 2
    case Recycle(_) => 1
    case Release(_) => 1
    case Skip => 1
    case NoPick => 6
    case IdleCount => 5
    case IdleCheck => 4
    case InIdle => 3
    case LeftIdle => 2
    case AfterIdle => 1
    case _ => 0
  }

  function Next(sh: Shared, w: int, wk: Worker): Outcome {
    if wk.pc.Inside? then Exited(sh, wk, ToHold) else Advanced(sh, w, wk)
  }

  /** On its way to the next scan the worker pushes nothing. */
  predicate Pushless(sh: Shared, wk: Worker) {
    && !wk.pc.Requeue?
    && (wk.pc.Leaving? || wk.pc.Left? || wk.pc.After? ==> StateOf(sh.states, wk.pc.f) != Ready)
  }

  /** While stopping() is true, the worker's idle fiber has ended by its next scan. */
  predicate WillEnd(wk: Worker) {
    match wk.pc
    case NoPick => true
    case IdleCount => true
    case IdleCheck => true
    case InIdle => true
    case LeftIdle => wk.idle == Term
    case AfterIdle => wk.idle == Term
    case Loop => wk.idle == Term
    case _ => false
  }

  ghost predicate OnlyUnpinned(q: seq<Entry>, q': seq<Entry>) {
    forall e <- q' :: e in q || e.thread == ANY_THREAD
  }

  /** What a worker's way to its next scan does to the rest. */
  ghost predicate Came(sh: Shared, wk: Worker, sh': Shared, wk': Worker) {
    && sh'.autoStop == sh.autoStop && sh'.stopping == sh.stopping && OnlyUnpinned(sh.queue, sh'.queue)
    && (Pushless(sh, wk) ==> sh'.queue == sh.queue && Pushless(sh', wk'))
    && (wk.idle == Term ==> wk'.idle == Term)
    && (WillEnd(wk) && StoppingNow(sh) ==> WillEnd(wk') && StoppingNow(sh') && sh'.states == sh.states)
  }

  ghost predicate Nears(sh: Shared, wk: Worker, o: Outcome) {
    Rank(o.wk.pc) < Rank(wk.pc) && WillScan(o.wk) && Came(sh, wk, o.sh, o.wk)
  }

  lemma FetchNears(sh: Shared, w: int, wk: Worker)
    requires Knows(sh, wk) && BeforeSwitch(wk.pc) && wk.pc != Loop
    ensures Nears(sh, wk, Fetch(sh, w, wk))
  {
  }

  lemma RetireNears(sh: Shared, wk: Worker)
    requires Knows(sh, wk) && AfterSwitch(wk.pc)
    ensures Nears(sh, wk, Retire(sh, wk))
  {
  }

  lemma RestNears(sh: Shared, wk: Worker)
    requires Knows(sh, wk) && WillScan(wk) && !BeforeSwitch(wk.pc) && !AfterSwitch(wk.pc) && !wk.pc.Inside?
    ensures Nears(sh, wk, Rest(sh, wk))
  {
  }

  lemma NextNears(sh: Shared, w: int, wk: Worker)
    requires Knows(sh, wk) && WillScan(wk) && wk.pc != Loop
    ensures Nears(sh, wk, Next(sh, w, wk))
  {
    if BeforeSwitch(wk.pc) { FetchNears(sh, w, wk); }
    else if AfterSwitch(wk.pc) { RetireNears(sh, wk); }
    else if !wk.pc.Inside? { RestNears(sh, wk); }
  }

  lemma SetTwice(m: map<int, Worker>, w: int, a: Worker, b: Worker)
    ensures m[w := a][w := b] == m[w := b]
  {
  }

  /** One worker alone goes on to its next scan. */
  lemma {:induction false} ToLoop(s0: System, s: System, w: int) returns (t: System)
    requires Goes(s0, s) && Good(s) && w in s.workers && WillScan(s.workers[w])
    ensures Goes(s0, t) && Good(t)
    ensures w in t.workers && t.workers == s.workers[w := t.workers[w]] && t.workers[w].pc == Loop
    ensures Came(s.sh, s.workers[w], t.sh, t.workers[w])
    decreases Rank(s.workers[w].pc)
  {
    var wk := s.workers[w];
    if wk.pc == Loop {
      t := s;
      assert s.workers == s.workers[w := wk];
    } else {
      OwnedKnows(s, w);
      NextNears(s.sh, w, wk);
      var o := Next(s.sh, w, wk);
      Move(s0, s, if wk.pc.Inside? then UserLeaves(w, ToHold) else Advance(w));
      t := ToLoop(s0, Commit(s, w, o), w);
      SetTwice(s.workers, w, o.wk, t.workers[w]);
    }
  }

  // ---- All workers to their scans ----

  ghost predicate Parked(s: System) {
    forall w <- s.workers :: WillScan(s.workers[w]) ==> s.workers[w].pc == Loop
  }

  /** No worker is lost and nothing pinned is added. */
  ghost predicate Onward(s: System, t: System) {
    && t.workers.Keys == s.workers.Keys && OnlyUnpinned(s.sh.queue, t.sh.queue)
    && t.sh.autoStop == s.sh.autoStop && t.sh.stopping == s.sh.stopping
    && forall w <- s.workers :: WillScan(s.workers[w]) ==> WillScan(t.workers[w])
  }

  lemma StillNoneDoomed(s: System, t: System)
    requires NoneDoomed(s) && Onward(s, t)
    ensures NoneDoomed(t)
  {
    forall e | e in t.sh.queue && e.thread != ANY_THREAD
      ensures !Doomed(t, e)
    {
      assert !Doomed(s, e);
    }
  }

  ghost function Roaming(s: System): set<int> {
    set w | w in s.workers && WillScan(s.workers[w]) && s.workers[w].pc != Loop
  }

  lemma Smaller(a: set<int>, b: set<int>, w: int)
    requires w in b && a <= b - {w}
    ensures |a| < |b|
  {
    SubsetSize(a, b - {w});
  }

  lemma RoamsLess(s: System, u: System, w: int)
    requires w in s.workers && w in u.workers && WillScan(s.workers[w]) && s.workers[w].pc != Loop
    requires u.workers == s.workers[w := u.workers[w]] && u.workers[w].pc == Loop
    requires Came(s.sh, s.workers[w], u.sh, u.workers[w])
    ensures |Roaming(u)| < |Roaming(s)| && Onward(s, u)
  {
    Smaller(Roaming(u), Roaming(s), w);
  }

  lemma OnwardTwice(s: System, u: System, t: System)
    requires Onward(s, u) && Onward(u, t)
    ensures Onward(s, t)
  {
  }

  lemma {:induction false} ParkAll(s0: System, s: System) returns (t: System)
    requires Goes(s0, s) && Good(s)
    ensures Goes(s0, t) && Good(t) && Parked(t) && Onward(s, t)
    decreases |Roaming(s)|
  {
    if w :| w in s.workers && WillScan(s.workers[w]) && s.workers[w].pc != Loop {
      var u := ToLoop(s0, s, w);
      RoamsLess(s, u, w);
      t := ParkAll(s0, u);
      OnwardTwice(s, u, t);
    } else {
      t := s;
    }
  }

  // ---- Emptying the list ----

  lemma NobodyRuns(s: System, f: nat)
    requires Owned(s) && Parked(s)
    ensures StateOf(s.sh.states, f) != Exec
  {
    assert Accounted(s, f);
    forall w | w in s.workers
      ensures Holds(s.workers[w], f) ==> StateOf(s.sh.states, f) != Exec
    {
      assert LocalOk(s.sh.states, s.workers[w]);
    }
  }

  /** Some worker may run the first entry, and takes it. */
  lemma WhoTakesFirst(s: System) returns (w: int)
    requires Good(s) && Parked(s) && NoneDoomed(s) && s.sh.queue != []
    ensures w in s.workers && s.workers[w].pc == Loop && FirstEligible(s.sh.queue, w, s.sh.states) == 0
  {
    var e := s.sh.queue[0];
    if e.thread == ANY_THREAD {
      assert FreeEntry(s.sh.queue);
      w :| w in s.workers && WillScan(s.workers[w]);
    } else {
      assert !Doomed(s, e);
      w := e.thread;
    }
    if e.task.FiberTask? {
      NobodyRuns(s, e.task.fiber);
    }
  }

  /** A worker at its scan takes an entry and comes back: the list is shorter by that entry. */
  lemma TakesOne(s0: System, s: System, w: int) returns (t: System)
    requires Goes(s0, s) && Good(s) && w in s.workers && s.workers[w].pc == Loop
    requires FirstEligible(s.sh.queue, w, s.sh.states) < |s.sh.queue|
    ensures Goes(s0, t) && Good(t)
    ensures w in t.workers && t.workers == s.workers[w := t.workers[w]] && t.workers[w].pc == Loop
    ensures t.sh.queue == Without(s.sh.queue, FirstEligible(s.sh.queue, w, s.sh.states))
    ensures t.sh.autoStop == s.sh.autoStop && t.sh.stopping == s.sh.stopping
    ensures s.workers[w].idle == Term ==> t.workers[w].idle == Term
  {
    Move(s0, s, Advance(w));
    var u := Apply(s, Advance(w));
    t := ToLoop(s0, u, w);
    SetTwice(s.workers, w, u.workers[w], t.workers[w]);
  }

  lemma {:induction false} EmptyList(s0: System, s: System) returns (t: System)
    requires Goes(s0, s) && Good(s) && Parked(s) && NoneDoomed(s)
    ensures Goes(s0, t) && Good(t) && Parked(t) && t.sh.queue == []
    ensures t.sh.autoStop == s.sh.autoStop && t.sh.stopping == s.sh.stopping
    decreases |s.sh.queue|
  {
    if s.sh.queue == [] {
      t := s;
    } else {
      var w := WhoTakesFirst(s);
      var u := TakesOne(s0, s, w);
      assert u.sh.queue == s.sh.queue[1..];
      StillNoneDoomed(s, u);
      t := EmptyList(s0, u);
    }
  }

  // ---- All idle fibers end ----

  ghost function Wakeful(s: System): set<int> {
    set w | w in s.workers && s.workers[w].pc != Gone && s.workers[w].idle != Term
  }

  /** With stopping() true an empty-handed worker's idle fiber ends. */
  lemma IdleEnds(s0: System, s: System, w: int) returns (t: System)
    requires Goes(s0, s) && Good(s) && StoppingNow(s.sh)
    requires w in s.workers && s.workers[w].pc == Loop && s.workers[w].idle != Term
    ensures Goes(s0, t) && Good(t) && StoppingNow(t.sh)
    ensures w in t.workers && t.workers == s.workers[w := t.workers[w]]
    ensures t.workers[w].pc == Loop && t.workers[w].idle == Term && t.sh.states == s.sh.states
  {
    Move(s0, s, Advance(w));
    var u := Apply(s, Advance(w));
    t := ToLoop(s0, u, w);
    SetTwice(s.workers, w, u.workers[w], t.workers[w]);
  }

  lemma {:induction false} AllIdleEnd(s0: System, s: System) returns (t: System)
    requires Goes(s0, s) && Good(s) && Parked(s) && StoppingNow(s.sh)
    ensures Goes(s0, t) && Good(t) && AllEnding(t)
    decreases |Wakeful(s)|
  {
    if w :| w in s.workers && s.workers[w].pc != Gone && s.workers[w].idle != Term {
      var u := IdleEnds(s0, s, w);
      Smaller(Wakeful(u), Wakeful(s), w);
      t := AllIdleEnd(s0, u);
    } else {
      t := s;
    }
  }

  // ---- All workers leave ----

  /** A worker whose idle fiber has ended works off what it may run, and leaves. */
  lemma {:induction false} LeavesFromLoop(s0: System, s: System, w: int) returns (t: System)
    requires Goes(s0, s) && Good(s) && w in s.workers && s.workers[w].idle == Term && s.workers[w].pc == Loop
    ensures Goes(s0, t) && Good(t)
    ensures w in t.workers && t.workers == s.workers[w := t.workers[w]] && t.workers[w].pc == Gone
    decreases |s.sh.queue|
  {
    if FirstEligible(s.sh.queue, w, s.sh.states) < |s.sh.queue| {
      var u := TakesOne(s0, s, w);
      t := LeavesFromLoop(s0, u, w);
      SetTwice(s.workers, w, u.workers[w], t.workers[w]);
    } else {
      Move(s0, s, Advance(w));
      var u := Apply(s, Advance(w));
      t := LeavesAtOnce(s0, u, w);
      SetTwice(s.workers, w, u.workers[w], t.workers[w]);
    }
  }

  lemma LeavesAtOnce(s0: System, s: System, w: int) returns (t: System)
    requires Goes(s0, s) && Good(s) && w in s.workers && s.workers[w].idle == Term && s.workers[w].pc == NoPick
    ensures Goes(s0, t) && Good(t)
    ensures w in t.workers && t.workers == s.workers[w := t.workers[w]] && t.workers[w].pc == Gone
  {
    assert LocalOk(s.sh.states, s.workers[w]);
    Move(s0, s, Advance(w));
    t := Apply(s, Advance(w));
  }

  lemma OneLeaves(s0: System, s: System, w: int) returns (t: System)
    requires Goes(s0, s) && Good(s) && w in s.workers && s.workers[w].idle == Term && s.workers[w].pc != Gone
    ensures Goes(s0, t) && Good(t)
    ensures w in t.workers && t.workers == s.workers[w := t.workers[w]] && t.workers[w].pc == Gone
  {
    if WillScan(s.workers[w]) {
      var u := ToLoop(s0, s, w);
      t := LeavesFromLoop(s0, u, w);
      SetTwice(s.workers, w, u.workers[w], t.workers[w]);
    } else {
      t := LeavesAtOnce(s0, s, w);
    }
  }

  ghost function Remaining(s: System): set<int> {
    set w | w in s.workers && s.workers[w].pc != Gone
  }

  lemma {:induction false} AllLeave(s0: System, s: System) returns (t: System)
    requires Goes(s0, s) && Good(s) && AllEnding(s)
    ensures Goes(s0, t) && AllGone(t)
    decreases |Remaining(s)|
  {
    if w :| w in s.workers && s.workers[w].pc != Gone {
      var u := OneLeaves(s0, s, w);
      Smaller(Remaining(u), Remaining(s), w);
      t := AllLeave(s0, u);
    } else {
      t := s;
    }
  }

  // ---- Exactly when stop can finish ----

  lemma NoneCountedWhenParked(s: System)
    requires Good(s) && Parked(s)
    ensures s.sh.active == 0
  {
    forall w | w in s.workers
      ensures w !in Busy(s)
    {
      assert WillScan(s.workers[w]) ==> s.workers[w].pc == Loop;
    }
    assert Busy(s) == {};
  }

  lemma UndoomedCanFinish(s: System)
    requires Good(s) && NoneDoomed(s)
    ensures CanFinish(s)
  {
    Stay(s);
    Move(s, s, RequestStop);
    var s1 := Apply(s, RequestStop);
    Move(s, s1, ConfirmStop);
    var s2 := Apply(s1, ConfirmStop);
    var s3 := ParkAll(s, s2);
    assert NoneDoomed(s2) by {
      assert forall e <- s.sh.queue :: Doomed(s2, e) == Doomed(s, e);
    }
    StillNoneDoomed(s2, s3);
    var s4 := EmptyList(s, s3);
    NoneCountedWhenParked(s4);
    var s5 := AllIdleEnd(s, s4);
    var s6 := AllLeave(s, s5);
  }

  lemma BlockedCannotFinish(s: System)
    requires Good(s) && !NoneDoomed(s) && !AllEnding(s)
    ensures !CanFinish(s)
  {
    var e :| e in s.sh.queue && Doomed(s, e);
    var w :| w in s.workers && s.workers[w].pc != Gone && s.workers[w].idle != Term;
    forall t | Goes(s, t)
      ensures !AllGone(t)
    {
      var steps :| ClosedAndDisciplined(s, steps) && Final(s, steps) == t;
      DoomedBlocksStop(s, steps, e, w);
    }
  }

  /**
   The exact condition, for any number of workers: from a state of a disciplined
   closed run, some disciplined closed continuation lets every worker leave its loop
   if and only if no entry is doomed, or every worker has left or has seen its idle
   fiber end.
   */
  lemma StopCanFinishIff(s0: System, steps: seq<Step>)
    requires Initial(s0) && HasWorker(s0) && ClosedAndDisciplined(s0, steps)
    ensures var s := Final(s0, steps); CanFinish(s) <==> NoneDoomed(s) || AllEnding(s)
  {
    var s := Final(s0, steps);
    InitiallyGood(s0);
    GoodAlong(s0, steps);
    if NoneDoomed(s) {
      UndoomedCanFinish(s);
    } else if AllEnding(s) {
      Stay(s);
      var t := AllLeave(s, s);
    } else {
      BlockedCannotFinish(s);
    }
  }

  /** A scheduler that has just been started can always be stopped. */
  lemma StopCanFinish(s: System)
    requires Initial(s)
    ensures CanFinish(s)
  {
    if HasWorker(s) {
      StopCanFinishIff(s, []);
    } else {
      Stay(s);
      assert AllGone(s);
    }
  }

  // ---- How an entry comes to be doomed ----

  /** Pinned to no worker: one call of an outside thread, before stop, and stop never returns. */
  lemma PinnedToNobody(s: System, thread: int)
    requires Initial(s) && HasWorker(s) && thread != ANY_THREAD && thread !in s.workers
    ensures var step := External(Submit(Some(CbTask(0)), thread));
      ClosedAndDisciplined(s, [step]) && !CanFinish(Final(s, [step]))
  {
    var step := External(Submit(Some(CbTask(0)), thread));
    Stay(s);
    Extend(s, [], step);
    assert [] + [step] == [step];
    var t := Apply(s, step);
    InitiallyGood(s);
    GoodAlong(s, [step]);
    assert Doomed(t, t.sh.queue[0]);
    BlockedCannotFinish(t);
  }

  /** A worker behind the decrement turns to the push. */
  lemma TurnsToPush(s0: System, s: System, v: int) returns (t: System)
    requires Goes(s0, s) && Good(s) && v in s.workers && ReadyInHand(s.sh, s.workers[v])
    ensures Goes(s0, t) && Good(t) && t.sh == s.sh && v in t.workers && t.workers == s.workers[v := t.workers[v]]
    ensures t.workers[v] == s.workers[v].(pc := Requeue(s.workers[v].pc.f, s.workers[v].pc.viaCb))
  {
    if s.workers[v].pc.After? {
      Move(s0, s, Advance(v));
      t := Apply(s, Advance(v));
    } else {
      t := s;
      assert s.workers == s.workers[v := s.workers[v]];
    }
  }

  lemma Pushes(s0: System, s: System, v: int, f: nat, viaCb: bool) returns (t: System)
    requires Goes(s0, s) && Good(s) && s.sh.queue == [] && v in s.workers && s.workers[v].pc == Requeue(f, viaCb)
    ensures Goes(s0, t) && Good(t) && v in t.workers && t.workers == s.workers[v := t.workers[v]]
    ensures t.workers[v] == s.workers[v].(pc := if viaCb then Release(f) else Loop)
    ensures t.sh.queue == [Entry(FiberTask(f), ANY_THREAD, s.sh.accepted)] && StateOf(t.sh.states, f) == Ready
  {
    assert LocalOk(s.sh.states, s.workers[v]);
    Move(s0, s, Advance(v));
    t := Apply(s, Advance(v));
  }

  lemma Releases(s0: System, s: System, v: int, f: nat) returns (t: System)
    requires Goes(s0, s) && Good(s) && v in s.workers && s.workers[v].pc == Release(f)
    ensures Goes(s0, t) && Good(t) && t.sh == s.sh && v in t.workers && t.workers == s.workers[v := t.workers[v]]
    ensures t.workers[v] == s.workers[v].(pc := Loop, cbFiber := None)
  {
    Move(s0, s, Advance(v));
    t := Apply(s, Advance(v));
  }

  /** A worker with a ready fiber in hand queues it and is back at its scan. */
  lemma QueuesReady(s0: System, s: System, v: int, f: nat) returns (t: System)
    requires Goes(s0, s) && Good(s) && s.sh.queue == []
    requires v in s.workers && ReadyInHand(s.sh, s.workers[v]) && s.workers[v].pc.f == f
    ensures Goes(s0, t) && Good(t) && v in t.workers && t.workers == s.workers[v := t.workers[v]]
    ensures t.workers[v].pc == Loop && t.workers[v].idle == s.workers[v].idle
    ensures t.sh.queue == [Entry(FiberTask(f), ANY_THREAD, s.sh.accepted)] && StateOf(t.sh.states, f) == Ready
  {
    var viaCb := s.workers[v].pc.viaCb;
    var u := TurnsToPush(s0, s, v);
    t := Pushes(s0, u, v, f, viaCb);
    SetTwice(s.workers, v, u.workers[v], t.workers[v]);
    if viaCb {
      var r := Releases(s0, t, v, f);
      SetTwice(s.workers, v, t.workers[v], r.workers[v]);
      t := r;
    }
  }

  lemma PicksReady(s0: System, s: System, v: int, f: nat) returns (t: System)
    requires Goes(s0, s) && Good(s) && v in s.workers && s.workers[v].pc == Loop
    requires |s.sh.queue| == 1 && s.sh.queue[0].task == FiberTask(f) && s.sh.queue[0].thread == ANY_THREAD
    requires StateOf(s.sh.states, f) == Ready
    ensures Goes(s0, t) && Good(t) && v in t.workers && t.workers == s.workers[v := t.workers[v]]
    ensures t.workers[v] == s.workers[v].(pc := Picked(s.sh.queue[0])) && t.sh.queue == []
  {
    assert FirstEligible(s.sh.queue, v, s.sh.states) == 0;
    Move(s0, s, Advance(v));
    t := Apply(s, Advance(v));
  }

  /** From the pick of a fiber to the assertion of SwapIn. */
  lemma PickedToCheck(s0: System, s: System, v: int, f: nat, e: Entry) returns (t: System)
    requires Goes(s0, s) && Good(s) && v in s.workers && s.workers[v].pc == Picked(e) && e.task == FiberTask(f)
    ensures Goes(s0, t) && Good(t) && v in t.workers && t.workers == s.workers[v := t.workers[v]]
    ensures t.workers[v] == s.workers[v].(pc := Check(f, e)) && t.sh.queue == s.sh.queue
  {
    assert LocalOk(s.sh.states, s.workers[v]);
    Move(s0, s, Advance(v));
    t := Apply(s, Advance(v));
  }

  lemma CheckToSwitch(s0: System, s: System, v: int, f: nat, e: Entry) returns (t: System)
    requires Goes(s0, s) && Good(s) && v in s.workers && s.workers[v].pc == Check(f, e)
    ensures Goes(s0, t) && Good(t) && v in t.workers && t.workers == s.workers[v := t.workers[v]]
    ensures t.workers[v] == s.workers[v].(pc := Switch(f, e)) && t.sh.queue == s.sh.queue
  {
    assert LocalOk(s.sh.states, s.workers[v]);
    Move(s0, s, Advance(v));
    t := Apply(s, Advance(v));
  }

  lemma SwitchToInside(s0: System, s: System, v: int, f: nat, e: Entry) returns (t: System)
    requires Goes(s0, s) && Good(s) && v in s.workers && s.workers[v].pc == Switch(f, e)
    ensures Goes(s0, t) && Good(t) && v in t.workers && t.workers == s.workers[v := t.workers[v]]
    ensures t.workers[v] == s.workers[v].(pc := Inside(f, e.task.CbTask?)) && t.sh.queue == s.sh.queue
  {
    assert LocalOk(s.sh.states, s.workers[v]);
    Move(s0, s, Advance(v));
    t := Apply(s, Advance(v));
  }

  /** It picks the fiber up again and runs it. */
  lemma RunsAgain(s0: System, s: System, v: int, f: nat) returns (t: System)
    requires Goes(s0, s) && Good(s) && v in s.workers && s.workers[v].pc == Loop
    requires |s.sh.queue| == 1 && s.sh.queue[0].task == FiberTask(f) && s.sh.queue[0].thread == ANY_THREAD
    requires StateOf(s.sh.states, f) == Ready
    ensures Goes(s0, t) && Good(t) && v in t.workers && t.workers == s.workers[v := t.workers[v]]
    ensures t.workers[v].pc.Inside? && t.workers[v].idle == s.workers[v].idle && t.sh.queue == []
  {
    var e := s.sh.queue[0];
    var t1 := PicksReady(s0, s, v, f);
    var t2 := PickedToCheck(s0, t1, v, f, e);
    var t3 := CheckToSwitch(s0, t2, v, f, e);
    t := SwitchToInside(s0, t3, v, f, e);
    SetTwice(s.workers, v, t1.workers[v], t2.workers[v]);
    SetTwice(s.workers, v, t2.workers[v], t3.workers[v]);
    SetTwice(s.workers, v, t3.workers[v], t.workers[v]);
  }

  /** Pinned to a worker that will not scan again: the running code names it, and stop never returns. */
  lemma PinsToDeparting(s0: System, s: System, v: int, w: int) returns (t: System)
    requires Goes(s0, s) && Good(s) && v in s.workers && s.workers[v].pc.Inside? && s.workers[v].idle != Term
    requires w in s.workers && w != ANY_THREAD && !WillScan(s.workers[w])
    ensures Goes(s0, t) && !CanFinish(t)
    ensures t.workers == s.workers && t.sh.queue == s.sh.queue + [Entry(CbTask(0), w, s.sh.accepted)]
  {
    var step := UserActs(v, Submit(Some(CbTask(0)), w));
    Move(s0, s, step);
    t := Apply(s, step);
    var e := Entry(CbTask(0), w, s.sh.accepted);
    assert t.sh.queue[|s.sh.queue|] == e && Doomed(t, e);
    BlockedCannotFinish(t);
  }

  /**
   The instability is what dooms entries pinned to real workers: wherever stopping()
   is true while a ready fiber is in one worker's hand, another worker that is about
   to scan can be made to end its idle fiber, and the fiber, run again, can pin a
   task to that worker, after which stop never returns although every entry names a
   worker of the scheduler.
   */
  lemma InstabilityCanDoom(s: System, v: int, w: int)
    requires Good(s) && StoppingNow(s.sh) && v in s.workers && w in s.workers && v != w && w != ANY_THREAD
    requires ReadyInHand(s.sh, s.workers[v]) && s.workers[v].idle != Term
    requires s.workers[w].pc == Loop && s.workers[w].idle != Term
    ensures exists t :: Goes(s, t) && !CanFinish(t) && forall e <- t.sh.queue :: e.thread in t.workers
  {
    var f := s.workers[v].pc.f;
    Stay(s);
    var t1 := IdleEnds(s, s, w);
    Move(s, t1, Advance(w));
    var t2 := Apply(t1, Advance(w));
    assert !WillScan(t2.workers[w]) && t2.workers[v] == s.workers[v] && t2.sh.states == s.sh.states;
    var t3 := QueuesReady(s, t2, v, f);
    var t4 := RunsAgain(s, t3, v, f);
    var t5 := PinsToDeparting(s, t4, v, w);
  }
}
