/**
 What holds for every client of the scheduler: exact counters, conservation of
 accepted entries, and bounded waiting.
 */
module SchedulerAccounting {
  import opened Wrappers
  import opened Fibers
  import opened TaskQueue
  import opened Scheduler

  // ---- Counters ----

  /** Between the increment under the scan lock and the matching decrement. */
  predicate Counted(pc: Pc) {
    pc.Picked? || pc.Prepare? || pc.Check? || pc.Switch? || pc.Inside? || pc.Leaving? || pc.Left? || pc.Skip?
  }

  predicate InIdleBracket(pc: Pc) {
    pc.IdleCheck? || pc.InIdle? || pc.LeftIdle?
  }

  /** The entry a worker has picked and neither started nor dropped. */
  function InHand(pc: Pc): Option<Entry> {
    match pc
    case Picked(e) => Some(e)
    case Prepare(e) => Some(e)
    case Check(_, e) => Some(e)
    case Switch(_, e) => Some(e)
    case _ => None
  }

  function Busy(s: System): set<int> {
    set w | w in s.workers && Counted(s.workers[w].pc)
  }

  function Idlers(s: System): set<int> {
    set w | w in s.workers && InIdleBracket(s.workers[w].pc)
  }

  function Carriers(s: System): set<int> {
    set w | w in s.workers && InHand(s.workers[w].pc).Some?
  }

  ghost predicate CountersExact(s: System) {
    && s.sh.active == |Busy(s)| && s.sh.idling == |Idlers(s)|
    && s.sh.accepted == |s.sh.queue| + |Carriers(s)| + |s.sh.fates|
  }

  function Bit(b: bool): int {
    if b then 1 else 0
  }

  /** Each counter moves with the bracket of the worker that steps. */
  ghost predicate Delta(sh: Shared, wk: Worker, o: Outcome) {
    && o.sh.active - sh.active == Bit(Counted(o.wk.pc)) - Bit(Counted(wk.pc))
    && o.sh.idling - sh.idling == Bit(InIdleBracket(o.wk.pc)) - Bit(InIdleBracket(wk.pc))
    && Disposed(o.sh) - Disposed(sh) == Bit(InHand(o.wk.pc).Some?) - Bit(InHand(wk.pc).Some?)
  }

  function Disposed(sh: Shared): int {
    sh.accepted - |sh.queue| - |sh.fates|
  }

  lemma FetchDelta(sh: Shared, w: int, wk: Worker)
    requires BeforeSwitch(wk.pc)
    ensures Delta(sh, wk, Fetch(sh, w, wk))
  {
  }

  lemma RetireDelta(sh: Shared, wk: Worker)
    requires AfterSwitch(wk.pc)
    ensures Delta(sh, wk, Retire(sh, wk))
  {
  }

  lemma RestDelta(sh: Shared, wk: Worker)
    requires !BeforeSwitch(wk.pc) && !AfterSwitch(wk.pc)
    ensures Delta(sh, wk, Rest(sh, wk))
  {
  }

  lemma AdvanceDelta(sh: Shared, w: int, wk: Worker)
    ensures Delta(sh, wk, Advanced(sh, w, wk))
  {
    if BeforeSwitch(wk.pc) { FetchDelta(sh, w, wk); }
    else if AfterSwitch(wk.pc) { RetireDelta(sh, wk); }
    else { RestDelta(sh, wk); }
  }

  lemma ExitDelta(sh: Shared, wk: Worker, exit: Exit)
    requires wk.pc.Inside?
    ensures Delta(sh, wk, Exited(sh, wk, exit))
  {
  }

  lemma SizeDelta(a: set<int>, b: set<int>, w: int)
    requires a - {w} == b - {w}
    ensures |a| - Bit(w in a) == |b| - Bit(w in b)
  {
    assert |a| == |a - {w}| + Bit(w in a);
    assert |b| == |b - {w}| + Bit(w in b);
  }

  lemma CommitCounts(s: System, w: int, o: Outcome)
    requires CountersExact(s) && w in s.workers && Delta(s.sh, s.workers[w], o)
    ensures CountersExact(Commit(s, w, o))
  {
    SizeDelta(Busy(Commit(s, w, o)), Busy(s), w);
    SizeDelta(Idlers(Commit(s, w, o)), Idlers(s), w);
    SizeDelta(Carriers(Commit(s, w, o)), Carriers(s), w);
  }

  lemma CountersStay(s: System, step: Step)
    requires Enabled(s, step) && CountersExact(s)
    ensures CountersExact(Apply(s, step))
  {
    match step
    case Advance(w) =>
      AdvanceDelta(s.sh, w, s.workers[w]);
      CommitCounts(s, w, Advanced(s.sh, w, s.workers[w]));
    case UserLeaves(w, exit) =>
      ExitDelta(s.sh, s.workers[w], exit);
      CommitCounts(s, w, Exited(s.sh, s.workers[w], exit));
    case _ =>
      var s' := Apply(s, step);
      assert Busy(s') == Busy(s) && Idlers(s') == Idlers(s) && Carriers(s') == Carriers(s);
  }

  lemma {:induction false} CountersAlong(s: System, steps: seq<Step>)
    requires IsRun(s, steps) && CountersExact(s)
    ensures CountersExact(Final(s, steps))
    decreases steps
  {
    if steps != [] {
      CountersStay(s, steps[0]);
      CountersAlong(Apply(s, steps[0]), steps[1..]);
    }
  }

  /**
   At every interleaving step of every run the active counter is the number of
   workers between pick and decrement, the idle counter the number inside the
   idle bracket, neither ever negative nor above the number of workers; and the
   accepted entries are as many as those queued, in hand and disposed of.
   */
  lemma ExactCounters(s: System, steps: seq<Step>)
    requires Initial(s) && IsRun(s, steps)
    ensures var t := Final(s, steps);
      && t.sh.active == |Busy(t)| && t.sh.idling == |Idlers(t)|
      && 0 <= t.sh.active <= |t.workers| && 0 <= t.sh.idling <= |t.workers|
      && t.sh.accepted == |t.sh.queue| + |Carriers(t)| + |t.sh.fates|
  {
    forall w | w in s.workers
      ensures w !in Busy(s) && w !in Idlers(s) && w !in Carriers(s)
    {
      assert s.workers[w].pc == Loop;
    }
    assert Busy(s) == {} && Idlers(s) == {} && Carriers(s) == {};
    CountersAlong(s, steps);
    var t := Final(s, steps);
    SubsetSize(Busy(t), t.workers.Keys);
    SubsetSize(Idlers(t), t.workers.Keys);
  }

  lemma SubsetSize(a: set<int>, b: set<int>)
    requires a <= b
    ensures |a| <= |b|
  {
    assert b == a + (b - a);
  }

  // ---- Conservation ----

  predicate Carries(s: System, w: int, t: nat) {
    w in s.workers && InHand(s.workers[w].pc).Some? && InHand(s.workers[w].pc).value.ticket == t
  }

  predicate Queued(s: System, t: nat) {
    exists i :: 0 <= i < |s.sh.queue| && s.sh.queue[i].ticket == t
  }

  predicate Carried(s: System, t: nat) {
    exists w :: w in s.workers && Carries(s, w, t)
  }

  predicate Logged(s: System, t: nat) {
    exists i :: 0 <= i < |s.sh.fates| && s.sh.fates[i].entry.ticket == t
  }

  /** The queue is in order of acceptance. */
  ghost predicate InOrder(s: System) {
    && (forall i, j | 0 <= i < j < |s.sh.queue| :: s.sh.queue[i].ticket < s.sh.queue[j].ticket)
    && (forall i | 0 <= i < |s.sh.queue| :: s.sh.queue[i].ticket < s.sh.accepted)
  }

  ghost predicate OnceEach(s: System) {
    && (forall v, w, t | Carries(s, v, t) && Carries(s, w, t) :: v == w)
    && (forall i, j | 0 <= i < j < |s.sh.fates| :: s.sh.fates[i].entry.ticket != s.sh.fates[j].entry.ticket)
  }

  /** Every accepted ticket, and no other, is in exactly one of three places. */
  ghost predicate OnePlace(s: System, t: nat) {
    Bit(Queued(s, t)) + Bit(Carried(s, t)) + Bit(Logged(s, t)) == Bit(t < s.sh.accepted)
  }

  ghost predicate DropsJustified(s: System) {
    forall d <- s.sh.fates | d.Dropped? :: d.entry.task.FiberTask? && Finished(d.seen)
  }

  ghost predicate Conserved(s: System) {
    InOrder(s) && OnceEach(s) && (forall t: nat :: OnePlace(s, t)) && DropsJustified(s)
  }

  /** The ways in which a step treats entries: push, pick, log, or none of them. */
  ghost predicate Pushes(sh: Shared, sh': Shared) {
    && sh'.fates == sh.fates && sh'.accepted == sh.accepted + 1
    && exists e :: sh'.queue == sh.queue + [e] && e.ticket == sh.accepted
  }

  ghost predicate Still(sh: Shared, sh': Shared) {
    sh'.fates == sh.fates && sh'.accepted == sh.accepted && sh'.queue == sh.queue
  }

  ghost predicate TakesAt(sh: Shared, wk: Worker, o: Outcome, k: nat) {
    && k < |sh.queue| && InHand(wk.pc) == None && InHand(o.wk.pc) == Some(sh.queue[k])
    && o.sh.queue == Without(sh.queue, k) && o.sh.accepted == sh.accepted && o.sh.fates == sh.fates
  }

  ghost predicate Logs(sh: Shared, wk: Worker, o: Outcome) {
    && InHand(wk.pc).Some? && InHand(o.wk.pc) == None
    && o.sh.queue == sh.queue && o.sh.accepted == sh.accepted
    && exists d :: o.sh.fates == sh.fates + [d] && d.entry == InHand(wk.pc).value
                   && (d.Dropped? ==> d.entry.task.FiberTask? && Finished(d.seen))
  }

  ghost predicate Handles(sh: Shared, wk: Worker, o: Outcome) {
    || (InHand(o.wk.pc) == InHand(wk.pc) && (Still(sh, o.sh) || Pushes(sh, o.sh)))
    || (exists k :: TakesAt(sh, wk, o, k))
    || Logs(sh, wk, o)
  }

  lemma FetchHandles(sh: Shared, w: int, wk: Worker)
    requires BeforeSwitch(wk.pc)
    ensures Handles(sh, wk, Fetch(sh, w, wk))
  {
    if wk.pc == Loop {
      assert FirstEligible(sh.queue, w, sh.states) < |sh.queue| ==>
        TakesAt(sh, wk, Fetch(sh, w, wk), FirstEligible(sh.queue, w, sh.states));
    }
  }

  lemma RetireHandles(sh: Shared, wk: Worker)
    requires AfterSwitch(wk.pc)
    ensures Handles(sh, wk, Retire(sh, wk))
  {
  }

  lemma RestHandles(sh: Shared, wk: Worker)
    requires !BeforeSwitch(wk.pc) && !AfterSwitch(wk.pc)
    ensures Handles(sh, wk, Rest(sh, wk))
  {
  }

  lemma AdvanceHandles(sh: Shared, w: int, wk: Worker)
    ensures Handles(sh, wk, Advanced(sh, w, wk))
  {
    if BeforeSwitch(wk.pc) { FetchHandles(sh, w, wk); }
    else if AfterSwitch(wk.pc) { RetireHandles(sh, wk); }
    else { RestHandles(sh, wk); }
  }

  lemma ExitHandles(sh: Shared, wk: Worker, exit: Exit)
    requires wk.pc.Inside?
    ensures Handles(sh, wk, Exited(sh, wk, exit))
  {
  }

  lemma SameHands(s: System, s': System)
    requires Conserved(s) && Still(s.sh, s'.sh)
    requires forall w, t :: Carries(s', w, t) <==> Carries(s, w, t)
    ensures Conserved(s')
  {
    forall t: nat
      ensures OnePlace(s', t)
    {
      assert OnePlace(s, t);
      assert Carried(s', t) <==> Carried(s, t);
    }
  }

  lemma PushConserves(s: System, s': System)
    requires Conserved(s) && Pushes(s.sh, s'.sh)
    requires forall w, t :: Carries(s', w, t) <==> Carries(s, w, t)
    ensures Conserved(s')
  {
    var e :| s'.sh.queue == s.sh.queue + [e] && e.ticket == s.sh.accepted;
    forall t: nat
      ensures OnePlace(s', t)
    {
      assert OnePlace(s, t);
      assert Carried(s', t) <==> Carried(s, t);
      assert s'.sh.queue[|s.sh.queue|] == e;
      assert forall i | 0 <= i < |s.sh.queue| :: s'.sh.queue[i] == s.sh.queue[i];
      assert Queued(s', t) <==> Queued(s, t) || t == s.sh.accepted;
    }
  }

  lemma TakeConserves(s: System, w: int, o: Outcome, k: nat)
    requires Conserved(s) && w in s.workers && TakesAt(s.sh, s.workers[w], o, k)
    ensures Conserved(Commit(s, w, o))
  {
    var s' := Commit(s, w, o);
    var e := s.sh.queue[k].ticket;
    assert OnePlace(s, e) && Queued(s, e);
    assert !Carried(s, e);
    assert Carries(s', w, e);
    assert forall v, t :: Carries(s', v, t) <==> Carries(s, v, t) || (v == w && t == e);
    forall t: nat
      ensures OnePlace(s', t)
    {
      assert OnePlace(s, t);
      WithoutQueued(s, s', k, t);
      assert Carried(s', t) <==> Carried(s, t) || t == e;
    }
  }

  lemma WithoutQueued(s: System, s': System, k: nat, t: nat)
    requires InOrder(s) && k < |s.sh.queue| && s'.sh.queue == Without(s.sh.queue, k)
    ensures Queued(s', t) <==> Queued(s, t) && t != s.sh.queue[k].ticket
  {
    if Queued(s, t) && t != s.sh.queue[k].ticket {
      var i :| 0 <= i < |s.sh.queue| && s.sh.queue[i].ticket == t;
      assert s'.sh.queue[if i < k then i else i - 1].ticket == t;
    }
  }

  lemma LogConserves(s: System, w: int, o: Outcome)
    requires Conserved(s) && w in s.workers && Logs(s.sh, s.workers[w], o)
    ensures Conserved(Commit(s, w, o))
  {
    var s' := Commit(s, w, o);
    var d :| o.sh.fates == s.sh.fates + [d] && d.entry == InHand(s.workers[w].pc).value
             && (d.Dropped? ==> d.entry.task.FiberTask? && Finished(d.seen));
    var e := d.entry.ticket;
    assert Carries(s, w, e);
    assert OnePlace(s, e) && Carried(s, e);
    assert !Logged(s, e);
    assert forall v, t :: Carries(s', v, t) <==> Carries(s, v, t) && v != w;
    forall t: nat
      ensures OnePlace(s', t)
    {
      assert OnePlace(s, t);
      LogGrows(s, s', d, t);
      assert Carried(s', t) <==> Carried(s, t) && t != e by {
        if Carried(s, t) && t != e {
          var v :| v in s.workers && Carries(s, v, t);
          assert Carries(s', v, t);
        }
      }
    }
  }

  lemma LogGrows(s: System, s': System, d: Fate, t: nat)
    requires s'.sh.fates == s.sh.fates + [d]
    ensures Logged(s', t) <==> Logged(s, t) || t == d.entry.ticket
  {
    assert s'.sh.fates[|s.sh.fates|] == d;
    assert forall i | 0 <= i < |s.sh.fates| :: s'.sh.fates[i] == s.sh.fates[i];
  }

  lemma CommitConserves(s: System, w: int, o: Outcome)
    requires Conserved(s) && w in s.workers && Handles(s.sh, s.workers[w], o)
    ensures Conserved(Commit(s, w, o))
  {
    if k :| TakesAt(s.sh, s.workers[w], o, k) {
      TakeConserves(s, w, o, k);
    } else if Logs(s.sh, s.workers[w], o) {
      LogConserves(s, w, o);
    } else if Pushes(s.sh, o.sh) {
      PushConserves(s, Commit(s, w, o));
    } else {
      SameHands(s, Commit(s, w, o));
    }
  }

  lemma ActConserves(s: System, act: Act)
    requires Conserved(s)
    ensures Conserved(s.(sh := Acted(s.sh, act)))
  {
    var s' := s.(sh := Acted(s.sh, act));
    if Still(s.sh, s'.sh) {
      SameHands(s, s');
    } else {
      PushConserves(s, s');
    }
  }

  lemma StepConserves(s: System, step: Step)
    requires Enabled(s, step) && Conserved(s)
    ensures Conserved(Apply(s, step))
  {
    match step
    case Advance(w) =>
      AdvanceHandles(s.sh, w, s.workers[w]);
      CommitConserves(s, w, Advanced(s.sh, w, s.workers[w]));
    case UserLeaves(w, exit) =>
      ExitHandles(s.sh, s.workers[w], exit);
      CommitConserves(s, w, Exited(s.sh, s.workers[w], exit));
    case UserActs(_, act) => ActConserves(s, act);
    case External(act) => ActConserves(s, act);
    case _ => SameHands(s, Apply(s, step));
  }

  lemma {:induction false} ConservedAlong(s: System, steps: seq<Step>)
    requires IsRun(s, steps) && Conserved(s)
    ensures Conserved(Final(s, steps))
    decreases steps
  {
    if steps != [] {
      StepConserves(s, steps[0]);
      ConservedAlong(Apply(s, steps[0]), steps[1..]);
    }
  }

  /**
   Conservation, for any client: after any run every accepted entry is either
   still queued, in the hand of exactly one worker, or was disposed of exactly
   once; it was disposed of un-run only as a fiber seen finished.
   */
  lemma TaskConservation(s: System, steps: seq<Step>)
    requires Initial(s) && IsRun(s, steps)
    ensures Conserved(Final(s, steps))
  {
    forall t: nat
      ensures OnePlace(s, t)
    {
      assert forall w :: !Carries(s, w, t);
    }
    ConservedAlong(s, steps);
  }

  /**
   A picked entry stays in its worker's hand until that worker disposes of it,
   and a callback is disposed of only by running.
   */
  lemma {:induction false} PickedIsDisposedOf(s: System, steps: seq<Step>, w: int, e: Entry)
    requires IsRun(s, steps) && w in s.workers && InHand(s.workers[w].pc) == Some(e)
    ensures var t := Final(s, steps);
      && w in t.workers && s.sh.fates <= t.sh.fates
      && (InHand(t.workers[w].pc) == Some(e) ||
          exists i :: |s.sh.fates| <= i < |t.sh.fates| && t.sh.fates[i].entry == e
                      && (e.task.CbTask? ==> t.sh.fates[i] == Ran(e)))
    decreases steps
  {
    if steps != [] {
      var s' := Apply(s, steps[0]);
      HandStep(s, steps[0], w, e);
      if InHand(s'.workers[w].pc) == Some(e) {
        PickedIsDisposedOf(s', steps[1..], w, e);
      } else {
        FatesGrow(s', steps[1..]);
        var i := |s.sh.fates|;
        assert Final(s, steps).sh.fates[i] == s'.sh.fates[i];
      }
    }
  }

  lemma HandStep(s: System, step: Step, w: int, e: Entry)
    requires Enabled(s, step) && w in s.workers && InHand(s.workers[w].pc) == Some(e)
    ensures var t := Apply(s, step);
      && w in t.workers && s.sh.fates <= t.sh.fates
      && (InHand(t.workers[w].pc) == Some(e) ||
          (|t.sh.fates| > |s.sh.fates| && t.sh.fates[|s.sh.fates|].entry == e
           && (e.task.CbTask? ==> t.sh.fates[|s.sh.fates|] == Ran(e))))
  {
    match step
    case Advance(v) => AdvanceHandles(s.sh, v, s.workers[v]);
    case UserLeaves(v, exit) => ExitHandles(s.sh, s.workers[v], exit);
    case _ =>
  }

  lemma {:induction false} FatesGrow(s: System, steps: seq<Step>)
    requires IsRun(s, steps)
    ensures s.sh.fates <= Final(s, steps).sh.fates && s.workers.Keys <= Final(s, steps).workers.Keys
    decreases steps
  {
    if steps != [] {
      match steps[0] {
        case Advance(v) => AdvanceHandles(s.sh, v, s.workers[v]);
        case UserLeaves(v, exit) => ExitHandles(s.sh, s.workers[v], exit);
        case _ =>
      }
      FatesGrow(Apply(s, steps[0]), steps[1..]);
    }
  }

  // ---- Bounded waiting ----

  /** The step is a scan that finds something. */
  predicate Picks(s: System, step: Step) {
    && step.Advance? && step.w in s.workers && s.workers[step.w].pc == Loop
    && FirstEligible(s.sh.queue, step.w, s.sh.states) < |s.sh.queue|
  }

  function PickedBy(s: System, step: Step): Entry
    requires Picks(s, step)
  {
    s.sh.queue[FirstEligible(s.sh.queue, step.w, s.sh.states)]
  }

  function PicksIn(s: System, steps: seq<Step>): nat
    requires IsRun(s, steps)
    decreases steps
  {
    if steps == [] then 0
    else PicksIn(Apply(s, steps[0]), steps[1..]) + if Picks(s, steps[0]) then 1 else 0
  }

  lemma QueueStep(s: System, step: Step)
    requires Enabled(s, step)
    ensures var q, q' := s.sh.queue, Apply(s, step).sh.queue;
      if Picks(s, step) then q' == Without(q, FirstEligible(q, step.w, s.sh.states)) else q <= q'
  {
    match step
    case Advance(w) =>
      var wk := s.workers[w];
      if AfterSwitch(wk.pc) { RetireHandles(s.sh, wk); }
      else if !BeforeSwitch(wk.pc) { RestHandles(s.sh, wk); }
    case _ =>
  }

  /**
   No overtaking beyond the queue: an unpinned callback at index k is picked by
   one of the next k + 1 successful scans, whoever makes them and whatever is
   pushed meanwhile.  Step n of the run is the scan that picks it.
   */
  lemma {:induction false} BoundedWaiting(s: System, steps: seq<Step>, k: nat) returns (n: nat)
    requires IsRun(s, steps) && k < |s.sh.queue| && k < PicksIn(s, steps)
    requires s.sh.queue[k].thread == ANY_THREAD && s.sh.queue[k].task.CbTask?
    ensures n < |steps| && IsRun(s, steps[..n]) && PicksIn(s, steps[..n]) <= k
    ensures Picks(Final(s, steps[..n]), steps[n]) && PickedBy(Final(s, steps[..n]), steps[n]) == s.sh.queue[k]
    decreases steps
  {
    var step := steps[0];
    var s' := Apply(s, step);
    QueueStep(s, step);
    var j := if Picks(s, step) then FirstEligible(s.sh.queue, step.w, s.sh.states) else |s.sh.queue|;
    assert Picks(s, step) ==> j <= k;
    if j == k {
      n := 0;
    } else {
      var m := BoundedWaiting(s', steps[1..], if j < k then k - 1 else k);
      n := m + 1;
      assert steps[..n][1..] == steps[1..][..m];
    }
  }
}
