/**
 One worker thread after stop: Scheduler::run of primo/schedule.cpp as the loop it
 is, with tasks that are finite programs.  Every method follows the transition
 system step by step, so that the loop is one of its runs; Run's contract is the
 drain property, its decreases clause the termination argument.  Line numbers are
 those of primo/schedule.cpp.
 */
module SingleWorker {
  import opened Wrappers
  import opened Fibers
  import opened TaskQueue
  import opened Sequences
  import Scheduler
  import LoneWorker
  import Accounting = SchedulerAccounting

  /** What a task does between two switches.  WakeSelf followed by YieldHold is switchTo. */
  datatype Op =
    | YieldReady
    | YieldHold
    | Spawn(body: seq<Op>, thread: int)
    | Wake(fiber: nat, thread: int)
    | WakeSelf(thread: int)
    | Throw

  function OpSize(op: Op): nat {
    1 + if op.Spawn? then Size(op.body) else 0
  }

  function Size(code: seq<Op>): nat {
    if code == [] then 0 else OpSize(code[0]) + Size(code[1..])
  }

  predicate Pinned(thread: int, tid: int) {
    thread == ANY_THREAD || thread == tid
  }

  /** No task is pinned to another thread. */
  predicate PinsOk(code: seq<Op>, tid: int) {
    forall op <- code :: OpPinsOk(op, tid)
  }

  predicate OpPinsOk(op: Op, tid: int) {
    match op
    case Spawn(body, thread) => Pinned(thread, tid) && PinsOk(body, tid)
    case Wake(_, thread) => Pinned(thread, tid)
    case WakeSelf(thread) => Pinned(thread, tid)
    case _ => true
  }

  type Code = Option<seq<Op>>

  /** A null callback weighs nothing. */
  function Weight(c: Code): nat {
    match c
    case None => 0
    case Some(code) => Size(code)
  }

  function CodeSize(codes: seq<Code>): nat {
    if codes == [] then 0 else Weight(codes[0]) + CodeSize(codes[1..])
  }

  function EntrySize(e: Entry, programs: seq<seq<Op>>): nat {
    if e.task.CbTask? && e.task.cb < |programs| then Size(programs[e.task.cb]) else 0
  }

  function QueueSize(q: seq<Entry>, programs: seq<seq<Op>>): nat {
    if q == [] then 0 else EntrySize(q[0], programs) + QueueSize(q[1..], programs)
  }

  lemma {:induction false} CodeSizeAt(codes: seq<Code>, f: nat, c: Code)
    requires f < |codes|
    ensures CodeSize(codes[f := c]) == CodeSize(codes) - Weight(codes[f]) + Weight(c)
    ensures Weight(codes[f]) <= CodeSize(codes)
  {
    if f == 0 {
      assert codes[f := c][1..] == codes[1..];
    } else {
      CodeSizeAt(codes[1..], f - 1, c);
      assert codes[f := c][1..] == codes[1..][f - 1 := c];
    }
  }

  lemma {:induction false} CodeSizeAppend(codes: seq<Code>, c: Code)
    ensures CodeSize(codes + [c]) == CodeSize(codes) + Weight(c)
  {
    if codes == [] {
      assert [c][1..] == [] && codes + [c] == [c];
    } else {
      CodeSizeAppend(codes[1..], c);
      assert (codes + [c])[1..] == codes[1..] + [c];
    }
  }

  lemma {:induction false} QueueSizeAppend(q: seq<Entry>, e: Entry, programs: seq<seq<Op>>)
    ensures QueueSize(q + [e], programs) == QueueSize(q, programs) + EntrySize(e, programs)
  {
    if q == [] {
      assert [e][1..] == [] && q + [e] == [e];
    } else {
      QueueSizeAppend(q[1..], e, programs);
      assert (q + [e])[1..] == q[1..] + [e];
    }
  }

  lemma {:induction false} QueueSizeMore(q: seq<Entry>, programs: seq<seq<Op>>, p: seq<Op>)
    requires forall e <- q | e.task.CbTask? :: e.task.cb < |programs|
    ensures QueueSize(q, programs + [p]) == QueueSize(q, programs)
  {
    if q != [] {
      QueueSizeMore(q[1..], programs, p);
    }
  }

  // ---- What the code of a fiber does before its next switch ----

  datatype Memory = Memory(states: seq<State>, codes: seq<Code>, programs: seq<seq<Op>>, entries: seq<Entry>, accepted: nat)
  {
    ghost predicate Has(f: nat) {
      f < |states| && |codes| == |states|
    }
  }

  predicate GoesOn(op: Op) {
    op.Spawn? || op.Wake? || op.WakeSelf?
  }

  function Pushed(m: Memory, task: Task, thread: int): Memory {
    m.(entries := m.entries + [Entry(task, thread, m.accepted)], accepted := m.accepted + 1)
  }

  /** The schedule call of one operation of fiber f; a fiber that does not exist cannot be named. */
  function Performed(m: Memory, f: nat, op: Op): Memory {
    match op
    case Spawn(body, thread) => Pushed(m.(programs := m.programs + [body]), CbTask(|m.programs|), thread)
    case Wake(g, thread) => if g < |m.states| then Pushed(m, FiberTask(g), thread) else m
    case WakeSelf(thread) => Pushed(m, FiberTask(f), thread)
    case _ => m
  }

  ghost function Stopped(m: Memory, f: nat, code: Code, st: State): Memory
    requires m.Has(f)
  {
    m.(states := m.states[f := st], codes := m.codes[f := code])
  }

  /** The code of fiber f runs up to its next switch; an empty callback throws. */
  ghost function RunTo(m: Memory, f: nat): Memory
    requires m.Has(f)
    decreases if m.codes[f].Some? then |m.codes[f].value| else 0
  {
    match m.codes[f]
    case None => Stopped(m, f, None, Except)
    case Some(code) =>
      if code == [] then Stopped(m, f, None, Term)
      else
        match code[0]
        case YieldReady => Stopped(m, f, Some(code[1..]), Ready)
        case YieldHold => Stopped(m, f, Some(code[1..]), Exec)
        case Throw => Stopped(m, f, None, Except)
        case op => RunTo(Performed(m.(codes := m.codes[f := Some(code[1..])]), f, op), f)
  }

  /** What the loop makes of a fiber that has left: queued again, parked, or finished. */
  ghost function SettledTo(m: Memory, f: nat): Memory
    requires m.Has(f)
  {
    if m.states[f] == Ready then Pushed(m, FiberTask(f), ANY_THREAD)
    else if Finished(m.states[f]) then m
    else m.(states := m.states[f := Hold])
  }

  /** One visit of a worker to fiber f. */
  ghost function Visited(m: Memory, f: nat): Memory
    requires m.Has(f)
  {
    RunToHas(m.(states := m.states[f := Exec]), f);
    SettledTo(RunTo(m.(states := m.states[f := Exec]), f), f)
  }

  /** The fiber on which a callback runs: the recycled one, or a new one. */
  function CbFiberFor(m: Memory, cbFiber: Option<nat>): nat {
    if cbFiber.Some? then cbFiber.value else |m.states|
  }

  ghost function Prepared(m: Memory, cbFiber: Option<nat>, code: seq<Op>): (r: Memory)
    requires |m.codes| == |m.states| && (cbFiber.Some? ==> m.Has(cbFiber.value))
    ensures r.Has(CbFiberFor(m, cbFiber))
  {
    match cbFiber
    case Some(f) => Stopped(m, f, Some(code), Init)
    case None => m.(states := m.states + [Init], codes := m.codes + [Some(code)])
  }

  /** A callback fiber that has finished is made new again. */
  ghost function GivenBack(m: Memory, f: nat): Memory
    requires m.Has(f)
  {
    if Finished(m.states[f]) then Stopped(m, f, None, Init) else m
  }

  lemma {:induction false} RunToHas(m: Memory, f: nat)
    requires m.Has(f)
    ensures var r := RunTo(m, f);
      && r.Has(f) && r.states == m.states[f := r.states[f]] && r.codes == m.codes[f := r.codes[f]]
      && r.states[f] in {Exec, Ready, Term, Except} && m.entries <= r.entries && m.programs <= r.programs
      && (m.codes[f] == None ==> r.states[f] == Except)
    decreases if m.codes[f].Some? then |m.codes[f].value| else 0
  {
    if m.codes[f].Some? && m.codes[f].value != [] && GoesOn(m.codes[f].value[0]) {
      var code := m.codes[f].value;
      RunToHas(Performed(m.(codes := m.codes[f := Some(code[1..])]), f, code[0]), f);
    }
  }

  /** A visit changes only that fiber and appends to the list. */
  lemma VisitedFacts(m: Memory, f: nat)
    requires m.Has(f)
    ensures var r := Visited(m, f);
      && r.Has(f) && r.states == m.states[f := r.states[f]] && r.codes == m.codes[f := r.codes[f]]
      && m.entries <= r.entries && m.programs <= r.programs && (m.codes[f] == None ==> r.states[f] == Except)
      && (Finished(r.states[f]) || r.states[f] == Hold || (r.states[f] == Ready && QueuedIn(r.entries, f)))
  {
    var m1 := m.(states := m.states[f := Exec]);
    RunToHas(m1, f);
    var r1 := RunTo(m1, f);
    if r1.states[f] == Ready {
      assert SettledTo(r1, f).entries[|r1.entries|].task == FiberTask(f);
    }
  }

  // ---- What a visit means, operation by operation ----

  /** The operation makes an entry, when there are n fibers. */
  predicate Schedules(op: Op, n: nat) {
    op.Spawn? || op.WakeSelf? || (op.Wake? && op.fiber < n)
  }

  /** The entry is the one the operation of fiber f asks for, thread and task. */
  ghost predicate Carries(e: Entry, op: Op, f: nat, programs: seq<seq<Op>>) {
    match op
    case Spawn(body, thread) =>
      e.thread == thread && e.task.CbTask? && e.task.cb < |programs| && programs[e.task.cb] == body
    case Wake(g, thread) => e.thread == thread && e.task == FiberTask(g)
    case WakeSelf(thread) => e.thread == thread && e.task == FiberTask(f)
    case _ => false
  }

  /** Operation k is the first at which the code leaves; k is the length when it runs to its end. */
  ghost predicate FirstStop(code: seq<Op>, k: nat) {
    && k <= |code| && (forall j | 0 <= j < k :: !code[j].YieldReady? && !code[j].YieldHold? && !code[j].Throw?)
    && (k < |code| ==> code[k].YieldReady? || code[k].YieldHold? || code[k].Throw?)
  }

  /** The state in which the code leaves at operation k, and the code that is left. */
  ghost predicate StopsAt(code: seq<Op>, k: nat, st: State, left: Code) {
    if k >= |code| then st == Term && left == None
    else if code[k].Throw? then st == Except && left == None
    else st == (if code[k].YieldReady? then Ready else Exec) && left == Some(code[k + 1..])
  }

  /** The positions of the scheduling operations before operation k, in order. */
  ghost predicate Positions(at: seq<nat>, code: seq<Op>, k: nat, n: nat) {
    && k <= |code|
    && (forall i | 0 <= i < |at| :: at[i] < k && Schedules(code[at[i]], n))
    && (forall i, j | 0 <= i < j < |at| :: at[i] < at[j])
    && (forall j | 0 <= j < k && Schedules(code[j], n) :: j in at)
  }

  /** The entries from index b on are those of the operations at the positions, with consecutive tickets. */
  ghost predicate Carried(entries: seq<Entry>, b: nat, ticket: nat, programs: seq<seq<Op>>, f: nat, code: seq<Op>, at: seq<nat>) {
    && |entries| == b + |at|
    && forall i | 0 <= i < |at| ::
         at[i] < |code| && Carries(entries[b + i], code[at[i]], f, programs) && entries[b + i].ticket == ticket + i
  }

  /**
   The entries of the new list beyond the old one are, in order, those of the
   scheduling operations before operation k: at lists their positions.
   */
  ghost predicate Appended(m: Memory, entries: seq<Entry>, programs: seq<seq<Op>>, f: nat, code: seq<Op>, k: nat, at: seq<nat>) {
    && m.entries <= entries && Positions(at, code, k, |m.states|)
    && Carried(entries, |m.entries|, m.accepted, programs, f, code, at)
  }

  lemma PositionsMore(at: seq<nat>, code: seq<Op>, k: nat, n: nat)
    requires k < |code| && Positions(at, code, k, n)
    ensures Positions(at + if Schedules(code[k], n) then [k] else [], code, k + 1, n)
  {
    var more := at + if Schedules(code[k], n) then [k] else [];
    forall j | 0 <= j < k + 1 && Schedules(code[j], n)
      ensures j in more
    {
      if j == k {
        assert more[|at|] == k;
      } else {
        assert j in at;
      }
    }
  }

  lemma CarriedMore(entries: seq<Entry>, b: nat, ticket: nat, programs: seq<seq<Op>>, f: nat, code: seq<Op>, at: seq<nat>,
                    e: Entry, k: nat, programs': seq<seq<Op>>)
    requires Carried(entries, b, ticket, programs, f, code, at) && programs <= programs'
    requires k < |code| && Carries(e, code[k], f, programs') && e.ticket == ticket + |at|
    ensures Carried(entries + [e], b, ticket, programs', f, code, at + [k])
  {
    forall i | 0 <= i < |at| + 1
      ensures (at + [k])[i] < |code| && (entries + [e])[b + i].ticket == ticket + i
      ensures Carries((entries + [e])[b + i], code[(at + [k])[i]], f, programs')
    {
      if i < |at| {
        assert (entries + [e])[b + i] == entries[b + i] && (at + [k])[i] == at[i];
      } else {
        assert (entries + [e])[b + i] == e && (at + [k])[i] == k;
      }
    }
  }

  /** The memory after the first j operations of fiber f's code. */
  ghost function UpTo(m: Memory, f: nat, code: seq<Op>, j: nat): (r: Memory)
    requires m.Has(f) && j <= |code|
    ensures r.states == m.states && |r.codes| == |m.codes|
  {
    if j == 0 then m
    else
      var p := UpTo(m, f, code, j - 1);
      Performed(p.(codes := p.codes[f := Some(code[j..])]), f, code[j - 1])
  }

  lemma {:induction false} UpToCodes(m: Memory, f: nat, code: seq<Op>, j: nat)
    requires m.Has(f) && m.codes[f] == Some(code) && j <= |code|
    ensures UpTo(m, f, code, j).codes == m.codes[f := Some(code[j..])]
  {
    if j > 0 {
      UpToCodes(m, f, code, j - 1);
    } else {
      assert code[0..] == code;
    }
  }

  /** As long as the code goes on, running it is running what is left of it. */
  lemma {:induction false} RunsOn(m: Memory, f: nat, code: seq<Op>, j: nat)
    requires m.Has(f) && m.codes[f] == Some(code) && j <= |code| && forall i | 0 <= i < j :: GoesOn(code[i])
    ensures RunTo(UpTo(m, f, code, j), f) == RunTo(m, f)
  {
    if j > 0 {
      RunsOn(m, f, code, j - 1);
      UpToCodes(m, f, code, j - 1);
      assert code[j - 1..][1..] == code[j..];
    }
  }

  /** The entry a scheduling operation makes. */
  lemma MakesEntry(m: Memory, f: nat, op: Op) returns (e: Entry)
    requires Schedules(op, |m.states|)
    ensures var r := Performed(m, f, op);
      && r.entries == m.entries + [e] && r.accepted == m.accepted + 1 && e.ticket == m.accepted
      && m.programs <= r.programs && Carries(e, op, f, r.programs)
  {
    e := Performed(m, f, op).entries[|m.entries|];
  }

  lemma AppendsOneMore(m: Memory, p: Memory, f: nat, code: seq<Op>, j: nat, at: seq<nat>) returns (at': seq<nat>)
    requires j < |code| && GoesOn(code[j]) && p.states == m.states && m.programs <= p.programs
    requires Appended(m, p.entries, p.programs, f, code, j, at) && p.accepted == m.accepted + |at|
    ensures var r := Performed(p, f, code[j]);
      && Appended(m, r.entries, r.programs, f, code, j + 1, at')
      && r.accepted == m.accepted + |at'| && m.programs <= r.programs
  {
    PositionsMore(at, code, j, |m.states|);
    if Schedules(code[j], |m.states|) {
      var e := MakesEntry(p, f, code[j]);
      CarriedMore(p.entries, |m.entries|, m.accepted, p.programs, f, code, at, e, j, Performed(p, f, code[j]).programs);
      at' := at + [j];
    } else {
      EmptyRight(at);
      at' := at;
    }
  }

  lemma {:induction false} UpToAppends(m: Memory, f: nat, code: seq<Op>, j: nat) returns (at: seq<nat>)
    requires m.Has(f) && j <= |code| && forall i | 0 <= i < j :: GoesOn(code[i])
    ensures var r := UpTo(m, f, code, j);
      && Appended(m, r.entries, r.programs, f, code, j, at)
      && r.accepted == m.accepted + |at| && m.programs <= r.programs
  {
    if j == 0 {
      at := [];
    } else {
      at := UpToAppends(m, f, code, j - 1);
      var p := UpTo(m, f, code, j - 1);
      at := AppendsOneMore(m, p.(codes := p.codes[f := Some(code[j..])]), f, code, j - 1, at);
    }
  }

  lemma {:induction false} FindStop(code: seq<Op>, k0: nat) returns (k: nat)
    requires k0 <= |code| && forall j | 0 <= j < k0 :: GoesOn(code[j])
    ensures FirstStop(code, k) && forall j | 0 <= j < k :: GoesOn(code[j])
    decreases |code| - k0
  {
    if k0 < |code| && GoesOn(code[k0]) {
      k := FindStop(code, k0 + 1);
    } else {
      k := k0;
    }
  }

  /** The code executes its operations one by one up to the first that leaves. */
  lemma RunToExact(m: Memory, f: nat) returns (k: nat, at: seq<nat>)
    requires m.Has(f) && m.codes[f].Some?
    ensures var r := RunTo(m, f);
      && r.Has(f) && FirstStop(m.codes[f].value, k) && StopsAt(m.codes[f].value, k, r.states[f], r.codes[f])
      && Appended(m, r.entries, r.programs, f, m.codes[f].value, k, at) && m.programs <= r.programs
  {
    var code := m.codes[f].value;
    k := FindStop(code, 0);
    at := UpToAppends(m, f, code, k);
    RunsOn(m, f, code, k);
    UpToCodes(m, f, code, k);
    LeavesAt(UpTo(m, f, code, k), f, code, k);
  }

  lemma LeavesAt(m: Memory, f: nat, code: seq<Op>, k: nat)
    requires m.Has(f) && FirstStop(code, k) && m.codes[f] == Some(code[k..])
    ensures var r := RunTo(m, f);
      && r.Has(f) && StopsAt(code, k, r.states[f], r.codes[f]) && r.entries == m.entries && r.programs == m.programs
  {
    if k < |code| {
      assert code[k..][0] == code[k] && code[k..][1..] == code[k + 1..];
    }
  }

  /** The entry with which the loop queues a ready fiber again. */
  ghost predicate Requeued(e: Entry, f: nat) {
    e.task == FiberTask(f) && e.thread == ANY_THREAD
  }

  /**
   One visit, without the functions that compute it: the code executes exactly the
   operations up to and including the first YieldReady, YieldHold or Throw, or all of
   them, and exactly the rest is kept.  The entries appended are, in order, those of
   the scheduling operations before that point, with their tasks and threads; after
   YieldReady the fiber is READY and has one more unpinned entry at the end, after
   YieldHold it is HOLD, at its end TERM, and EXCEPT after a Throw.
   */
  lemma VisitExact(m: Memory, f: nat) returns (k: nat, at: seq<nat>)
    requires m.Has(f) && m.codes[f].Some?
    ensures var code, r := m.codes[f].value, Visited(m, f);
      && r.Has(f) && FirstStop(code, k)
      && (k == |code| ==> r.states[f] == Term && r.codes[f] == None)
      && (k < |code| && code[k].Throw? ==> r.states[f] == Except && r.codes[f] == None)
      && (k < |code| && code[k].YieldHold? ==> r.states[f] == Hold && r.codes[f] == Some(code[k + 1..]))
      && (k < |code| && code[k].YieldReady? ==>
            && r.states[f] == Ready && r.codes[f] == Some(code[k + 1..])
            && r.entries != [] && Requeued(r.entries[|r.entries| - 1], f)
            && Appended(m, r.entries[..|r.entries| - 1], r.programs, f, code, k, at))
      && (k == |code| || !code[k].YieldReady? ==> Appended(m, r.entries, r.programs, f, code, k, at))
  {
    var m1 := m.(states := m.states[f := Exec]);
    k, at := RunToExact(m1, f);
    RunToHas(m1, f);
    var r1 := RunTo(m1, f);
    assert Appended(m, r1.entries, r1.programs, f, m.codes[f].value, k, at);
    if r1.states[f] == Ready {
      assert SettledTo(r1, f).entries[..|r1.entries|] == r1.entries;
    }
  }

  /** A visit to a fiber without a callback ends in an exception and schedules nothing. */
  lemma VisitNull(m: Memory, f: nat)
    requires m.Has(f) && m.codes[f] == None
    ensures Visited(m, f) == m.(states := m.states[f := Except])
  {
    assert m.states[f := Exec][f := Except] == m.states[f := Except];
    assert m.codes[f := None] == m.codes;
  }

  /**
   One picked callback, in the same terms: its program runs on the recycled fiber or on
   one that is new, from its first operation to the first that leaves; the fiber is
   then recyclable when the program ended or threw, and otherwise queued again or
   parked with exactly the rest.  No other fiber changes.
   */
  lemma CallbackExact(m: Memory, cbFiber: Option<nat>, code: seq<Op>) returns (k: nat, at: seq<nat>)
    requires |m.codes| == |m.states| && (cbFiber.Some? ==> m.Has(cbFiber.value))
    ensures var f := if cbFiber.Some? then cbFiber.value else |m.states|;
      var v := Visited(Prepared(m, cbFiber, code), CbFiberFor(m, cbFiber));
      f == CbFiberFor(m, cbFiber) && v.Has(f) && FirstStop(code, k) && m.entries <= v.entries &&
      var r := GivenBack(v, f);
      && r.Has(f) && |r.states| == (if cbFiber.Some? then |m.states| else |m.states| + 1)
      && (forall g: nat | g < |m.states| && g != f :: r.states[g] == m.states[g] && r.codes[g] == m.codes[g])
      && r.entries == v.entries && r.programs == v.programs
      && (k == |code| || code[k].Throw? ==> r.states[f] == Init && r.codes[f] == None)
      && (k < |code| && code[k].YieldHold? ==> r.states[f] == Hold && r.codes[f] == Some(code[k + 1..]))
      && (k < |code| && code[k].YieldReady? ==>
            && r.states[f] == Ready && r.codes[f] == Some(code[k + 1..])
            && r.entries != [] && Requeued(r.entries[|r.entries| - 1], f))
      && Positions(at, code, k, |r.states|)
      && Carried(if k < |code| && code[k].YieldReady? then r.entries[..|r.entries| - 1] else r.entries,
                 |m.entries|, m.accepted, r.programs, f, code, at)
  {
    var f := CbFiberFor(m, cbFiber);
    var p := Prepared(m, cbFiber, code);
    k, at := VisitExact(p, f);
    VisitedFacts(p, f);
  }

  // ---- Where a parked fiber stands ----

  /** What is left of the code is an end piece of what there was. */
  ghost predicate Suffix(left: Code, whole: Code) {
    left.Some? ==> whole.Some? && |left.value| <= |whole.value|
                   && left.value == whole.value[|whole.value| - |left.value|..]
  }

  /** The last operation executed is a YieldHold. */
  ghost predicate HoldPoint(left: Code, whole: Code) {
    && left.Some? && whole.Some? && |left.value| < |whole.value|
    && left.value == whole.value[|whole.value| - |left.value|..]
    && whole.value[|whole.value| - |left.value| - 1].YieldHold?
  }

  lemma VisitLeaves(m: Memory, f: nat)
    requires m.Has(f)
    ensures var r := Visited(m, f);
      r.Has(f) && Suffix(r.codes[f], m.codes[f]) && (r.states[f] == Hold ==> HoldPoint(r.codes[f], m.codes[f]))
  {
    if m.codes[f].None? {
      VisitNull(m, f);
    } else {
      var k, at := VisitExact(m, f);
    }
  }

  predicate NeverHolds(c: Code) {
    c.Some? ==> forall op <- c.value :: !op.YieldHold?
  }

  lemma SuffixTwice(left: Code, mid: Code, whole: Code)
    requires Suffix(left, mid) && Suffix(mid, whole)
    ensures Suffix(left, whole) && (HoldPoint(left, mid) ==> HoldPoint(left, whole))
  {
    if left.Some? {
      var d := |whole.value| - |mid.value|;
      assert forall j | 0 <= j < |mid.value| :: mid.value[j] == whole.value[d + j];
    }
  }

  lemma QueueGrew(a: seq<Entry>, b: seq<Entry>)
    requires a <= b
    ensures forall g | QueuedIn(a, g) :: QueuedIn(b, g)
  {
    forall g | QueuedIn(a, g)
      ensures QueuedIn(b, g)
    {
      var i :| 0 <= i < |a| && a[i].task == FiberTask(g);
      assert b[i] == a[i];
    }
  }

  /**
   The state of a fiber nobody runs: ready means queued; new means the recycled one,
   queued, or dormant, that is, made before the run and not scheduled then.  A parked
   one has stopped at a YieldHold, or has not been visited and is queued or dormant.
   */
  ghost predicate Settled(st: State, f: nat, q: seq<Entry>, cbFiber: Option<nat>, dormant: set<nat>, left: Code, whole: Code) {
    && st != Exec
    && (st == Ready ==> QueuedIn(q, f))
    && (st == Init ==> cbFiber == Some(f) || QueuedIn(q, f) || f in dormant)
    && (st == Hold ==> HoldPoint(left, whole) || (left == whole && (QueuedIn(q, f) || f in dormant)))
  }

  /** The list names fibers and callbacks that exist, and nothing is pinned to another thread. */
  ghost predicate WellFormed(n: nat, codes: seq<Code>, programs: seq<seq<Op>>, q: seq<Entry>, tid: int) {
    && (forall e <- q :: Pinned(e.thread, tid) &&
          match e.task
          case FiberTask(f) => f < n
          case CbTask(c) => c < |programs|)
    && (forall p <- programs :: PinsOk(p, tid))
    && (forall c <- codes :: c.Some? ==> PinsOk(c.value, tid))
  }

  /**
   Each fiber's code is what is left of its origin: the code it had at first, or the
   callback it was last made for, on a fiber that did not exist at first.
   */
  ghost predicate TracedFrom(first: seq<Code>, origin: seq<Code>, codes: seq<Code>, programs: seq<seq<Op>>, cbFiber: Option<nat>) {
    && |codes| == |origin| && first <= origin
    && (forall g: nat | |first| <= g < |origin| :: origin[g].Some? && origin[g].value in programs)
    && (forall g: nat | g < |origin| :: Suffix(codes[g], origin[g]))
    && (cbFiber.Some? ==> cbFiber.value >= |first|)
  }

  /** The fiber of a picked entry. */
  function Fibered(ft: Option<Entry>): Option<nat> {
    if ft.Some? && ft.value.task.FiberTask? then Some(ft.value.task.fiber) else None
  }

  ghost predicate AllSettledBut(f: Option<nat>, states: seq<State>, codes: seq<Code>, origin: seq<Code>, q: seq<Entry>,
                                cbFiber: Option<nat>, dormant: set<nat>)
    requires |codes| == |states| == |origin|
  {
    forall g: nat | g < |states| && f != Some(g) :: Settled(states[g], g, q, cbFiber, dormant, codes[g], origin[g])
  }

  lemma AddedTraced(first: seq<Code>, origin: seq<Code>, codes: seq<Code>, programs: seq<seq<Op>>, code: seq<Op>)
    requires TracedFrom(first, origin, codes, programs, None) && code in programs
    ensures TracedFrom(first, origin + [Some(code)], codes + [Some(code)], programs, Some(|codes|))
  {
  }

  lemma AddedSettled(states: seq<State>, codes: seq<Code>, origin: seq<Code>, q: seq<Entry>, dormant: set<nat>, code: seq<Op>)
    requires |codes| == |states| == |origin| && AllSettledBut(None, states, codes, origin, q, None, dormant)
    ensures AllSettledBut(Some(|states|), states + [Init], codes + [Some(code)], origin + [Some(code)], q, Some(|states|), dormant)
  {
  }

  lemma MadeNewSettled(f: nat, states: seq<State>, codes: seq<Code>, origin: seq<Code>, q: seq<Entry>, dormant: set<nat>)
    requires f < |states| == |codes| == |origin| && AllSettledBut(Some(f), states, codes, origin, q, Some(f), dormant)
    ensures AllSettledBut(None, states[f := Init], codes[f := None], origin, q, Some(f), dormant)
  {
  }

  lemma MadeNewTraced(f: nat, first: seq<Code>, origin: seq<Code>, codes: seq<Code>, programs: seq<seq<Op>>, cbFiber: Option<nat>)
    requires f < |codes| && TracedFrom(first, origin, codes, programs, cbFiber)
    ensures TracedFrom(first, origin, codes[f := None], programs, cbFiber)
  {
  }

  /** With nothing pinned elsewhere and no fiber running the scan stops at once; the others stay settled. */
  lemma FirstIsTaken(q: seq<Entry>, states: seq<State>, codes: seq<Code>, programs: seq<seq<Op>>, origin: seq<Code>,
                     cbFiber: Option<nat>, dormant: set<nat>, tid: int)
    requires |codes| == |states| == |origin| && q != [] && WellFormed(|states|, codes, programs, q, tid)
    requires AllSettledBut(None, states, codes, origin, q, cbFiber, dormant)
    ensures FirstEligible(q, tid, states) == 0 && Without(q, 0) == q[1..] && !RunsNow(q[0], states)
    ensures WellFormed(|states|, codes, programs, q[1..], tid)
    ensures AllSettledBut(Fibered(Some(q[0])), states, codes, origin, q[1..], cbFiber, dormant)
  {
    assert q[0] in q;
    forall g: nat | QueuedIn(q, g) && q[0].task != FiberTask(g)
      ensures QueuedIn(q[1..], g)
    {
      var i :| 0 <= i < |q| && q[i].task == FiberTask(g);
      assert q[1..][i - 1] == q[i];
    }
  }

  predicate Disposed(fates: seq<Scheduler.Fate>, t: nat) {
    exists i :: 0 <= i < |fates| && fates[i].entry.ticket == t
  }

  /** Every ticket below the bound was disposed of exactly once, and un-run only as a finished fiber. */
  ghost predicate AllDisposedOf(fates: seq<Scheduler.Fate>, accepted: nat) {
    && (forall t: nat | t < accepted :: Disposed(fates, t))
    && (forall i, j | 0 <= i < j < |fates| :: fates[i].entry.ticket != fates[j].entry.ticket)
    && (forall d <- fates | d.Dropped? :: d.entry.task.FiberTask? && Finished(d.seen))
  }

  /** A list that pushes alone have built satisfies the premise. */
  lemma PushesConserve(sh: Scheduler.Shared, tid: int)
    requires sh.fates == [] && sh.accepted == |sh.queue|
    requires forall i | 0 <= i < |sh.queue| :: sh.queue[i].ticket == i
    ensures Accounting.Conserved(LoneWorker.Lone(sh, tid, Scheduler.START_WORKER))
  {
    var s := LoneWorker.Lone(sh, tid, Scheduler.START_WORKER);
    forall t: nat
      ensures Accounting.OnePlace(s, t)
    {
      assert !Accounting.Carried(s, t) && !Accounting.Logged(s, t);
      assert t < sh.accepted ==> sh.queue[t].ticket == t;
    }
  }

  lemma NothingLeft(s0: Scheduler.System, sh: Scheduler.Shared, tid: int, wk: Scheduler.Worker)
    requires Accounting.Conserved(s0) && LoneWorker.At(s0, sh, tid, wk) && wk.pc.Gone? && sh.queue == []
    ensures AllDisposedOf(sh.fates, sh.accepted)
  {
    var s := LoneWorker.Lone(sh, tid, wk);
    var steps :| Scheduler.IsRun(s0, steps) && Scheduler.Final(s0, steps) == s;
    Accounting.ConservedAlong(s0, steps);
    forall t: nat | t < sh.accepted
      ensures Disposed(sh.fates, t)
    {
      assert Accounting.OnePlace(s, t);
      assert !Accounting.Queued(s, t) && !Accounting.Carried(s, t);
      assert Accounting.Logged(s, t);
    }
  }

  class Worker {
    const tid: int
    const q: Queue
    var states: seq<State>
    var codes: seq<Code>
    var programs: seq<seq<Op>>
    var cbFiber: Option<nat>
    var idle: State
    var idling: nat
    ghost var dormant: set<nat>
    ghost var fates: seq<Scheduler.Fate>
    ghost var first: seq<Code>
    ghost var origin: seq<Code>
    var autoStop: bool
    var stopping: bool

    /** The remaining work: program steps not yet executed, queued or begun. */
    function Remaining(): nat
      reads this, q
    {
      QueueSize(q.entries, programs) + CodeSize(codes)
    }

    ghost predicate Shape()
      reads this, q
    {
      |codes| == |states| && autoStop && stopping && WellFormed(|states|, codes, programs, q.entries, tid)
    }

    ghost predicate Traced()
      reads this
    {
      |codes| == |states| == |origin| && TracedFrom(first, origin, codes, programs, cbFiber)
    }

    /** Fibers other than f, which nobody is running: see Settled. */
    ghost predicate OthersSettled(f: nat)
      reads this, q
      requires |codes| == |states| == |origin|
    {
      AllSettledBut(Some(f), states, codes, origin, q.entries, cbFiber, dormant)
    }

    ghost predicate AllSettled()
      reads this, q
      requires |codes| == |states| == |origin|
    {
      AllSettledBut(None, states, codes, origin, q.entries, cbFiber, dormant)
    }

    ghost predicate CbOk()
      reads this
      requires |codes| == |states|
    {
      cbFiber.Some? ==>
        var f := cbFiber.value;
        f < |states| && (states[f] == Except || (states[f] == Init && codes[f] == None))
    }

    ghost predicate AtLoopHead()
      reads this, q
    {
      && Shape() && Traced() && CbOk()
      && AllSettled()
      && q.active == 0 && idling == 0
      && (idle == Init || idle == Hold || idle == Term)
    }

    constructor (tid: int, q: Queue)
      ensures this.tid == tid && this.q == q && states == [] && codes == [] && programs == []
      ensures cbFiber == None && idle == Init && idling == 0 && autoStop && stopping
    {
      this.tid, this.q, states, codes, programs := tid, q, [], [], [];
      cbFiber, idle, idling, autoStop, stopping := None, Init, 0, true, true;
    }

    // ---- The state as the transition system sees it ----

    ghost function Sh(): Scheduler.Shared
      reads this, q
    {
      Scheduler.Shared(states, q.entries, q.active, idling, autoStop, stopping, q.accepted, fates, false)
    }

    ghost function Wk(pc: Scheduler.Pc): Scheduler.Worker
      reads this
    {
      Scheduler.Worker(pc, cbFiber, idle)
    }

    /** A run of the transition system that began at s0 has brought the worker to this point of the loop. */
    ghost predicate At(s0: Scheduler.System, pc: Scheduler.Pc)
      reads this, q
    {
      LoneWorker.At(s0, Sh(), tid, Wk(pc))
    }

    ghost function Mem(): Memory
      reads this, q
    {
      Memory(states, codes, programs, q.entries, q.accepted)
    }

    /** One schedule call. */
    method Submit(task: Task, thread: int)
      requires Shape() && Pinned(thread, tid)
      requires match task case FiberTask(f) => f < |states| case CbTask(c) => c < |programs|
      modifies q`entries, q`accepted
      ensures Shape() && q.active == old(q.active) && Mem() == Pushed(old(Mem()), task, thread)
      ensures Remaining() == old(Remaining()) + EntrySize(Entry(task, thread, 0), programs)
    {
      QueueSizeAppend(q.entries, Entry(task, thread, q.accepted), programs);
      var needTickle := q.ScheduleNoLock(Some(task), thread);
    }

    /** An operation after which the fiber goes on. */
    method Perform(f: nat, op: Op, ghost v: bool, ghost s0: Scheduler.System)
      requires Shape() && f < |states| && OpPinsOk(op, tid) && GoesOn(op)
      requires At(s0, Scheduler.Inside(f, v))
      modifies this`programs, q`entries, q`accepted
      ensures Shape() && q.active == old(q.active) && At(s0, Scheduler.Inside(f, v))
      ensures Mem() == Performed(old(Mem()), f, op)
      ensures Remaining() <= old(Remaining()) + OpSize(op) - 1
    {
      ghost var sh, wk := Sh(), Wk(Scheduler.Inside(f, v));
      match op {
        case Spawn(body, thread) =>
          QueueSizeMore(q.entries, programs, body);
          LoneWorker.Submits(s0, sh, tid, wk, CbTask(|programs|), thread);
          programs := programs + [body];
          Submit(CbTask(|programs| - 1), thread);
        case Wake(g, thread) =>
          if g < |states| {
            LoneWorker.Submits(s0, sh, tid, wk, FiberTask(g), thread);
            Submit(FiberTask(g), thread);
          }
        case WakeSelf(thread) =>
          LoneWorker.Submits(s0, sh, tid, wk, FiberTask(f), thread);
          Submit(FiberTask(f), thread);
      }
    }

    /** Takes the next operation off the program of fiber f. */
    method Next(f: nat) returns (op: Op)
      requires Shape() && f < |states| && codes[f].Some? && codes[f].value != []
      modifies this`codes
      ensures Shape() && op == old(codes)[f].value[0] && OpPinsOk(op, tid)
      ensures codes == old(codes)[f := Some(old(codes)[f].value[1..])]
      ensures Remaining() == old(Remaining()) - OpSize(op)
    {
      var code := codes[f].value;
      op := code[0];
      CodeSizeAt(codes, f, Some(code[1..]));
      codes := codes[f := Some(code[1..])];
    }

    /** One operation after which the fiber goes on, taken off its program. */
    method PerformNext(f: nat, ghost v: bool, ghost s0: Scheduler.System)
      requires Shape() && f < |states| && At(s0, Scheduler.Inside(f, v))
      requires codes[f].Some? && codes[f].value != [] && GoesOn(codes[f].value[0])
      modifies this`codes, this`programs, q`entries, q`accepted
      ensures Shape() && q.active == old(q.active) && At(s0, Scheduler.Inside(f, v))
      ensures |states| == |old(states)| && states == old(states)
      ensures Mem().Has(f) && RunTo(Mem(), f) == RunTo(old(Mem()), f)
      ensures Remaining() < old(Remaining())
    {
      var op := Next(f);
      Perform(f, op, v, s0);
    }

    /** The callback of fiber f ended, normally or by an exception. */
    method End(f: nat, st: State)
      requires Shape() && f < |states|
      modifies this`codes, this`states
      ensures Shape() && states == old(states)[f := st] && codes == old(codes)[f := None]
      ensures Remaining() == old(Remaining()) - Weight(old(codes)[f])
    {
      CodeSizeAt(codes, f, None);
      codes := codes[f := None];
      states := states[f := st];
    }

    /** Code of fiber f up to its next switch: what SwapIn does, seen from the loop. */
    method RunCode(f: nat, ghost v: bool, ghost s0: Scheduler.System)
      requires Shape() && f < |states| && states[f] == Exec && At(s0, Scheduler.Inside(f, v))
      modifies this`states, this`codes, this`programs, q`entries, q`accepted
      ensures Shape() && q.active == old(q.active) && At(s0, Scheduler.Left(f, v))
      ensures Mem() == RunTo(old(Mem()), f) && |states| == |old(states)|
      ensures Remaining() < old(Remaining()) || (Remaining() == old(Remaining()) && q.entries == old(q.entries))
      ensures !Finished(states[f]) ==> Remaining() < old(Remaining())
    {
      while codes[f].Some? && codes[f].value != [] && GoesOn(codes[f].value[0])
        invariant Shape() && q.active == old(q.active) && At(s0, Scheduler.Inside(f, v)) && states == old(states)
        invariant RunTo(Mem(), f) == RunTo(old(Mem()), f)
        invariant Remaining() < old(Remaining()) || (Remaining() == old(Remaining()) && q.entries == old(q.entries))
        decreases Remaining()
      {
        PerformNext(f, v, s0);
      }
      Depart(f, v, s0);
    }

    /** The operation with which the code leaves, or its end. */
    method Depart(f: nat, ghost v: bool, ghost s0: Scheduler.System)
      requires Shape() && f < |states| && states[f] == Exec && At(s0, Scheduler.Inside(f, v))
      requires codes[f].Some? && codes[f].value != [] ==> !GoesOn(codes[f].value[0])
      modifies this`states, this`codes
      ensures Shape() && At(s0, Scheduler.Left(f, v))
      ensures Mem() == RunTo(old(Mem()), f)
      ensures Remaining() <= old(Remaining()) && (!Finished(states[f]) ==> Remaining() < old(Remaining()))
    {
      ghost var sh, wk := Sh(), Wk(Scheduler.Inside(f, v));
      if codes[f].Some? && codes[f].value != [] {
        var op := Next(f);
        match op {
          case YieldReady =>
            LoneWorker.SwapsOut(s0, sh, tid, wk, f, v, Ready);
            states := states[f := Ready];
          case YieldHold =>
            LoneWorker.SwapsOut(s0, sh, tid, wk, f, v, Exec);
            assert states == states[f := Exec];
          case Throw =>
            LoneWorker.SwapsOut(s0, sh, tid, wk, f, v, Except);
            End(f, Except);
        }
      } else {
        var st := if codes[f].Some? then Term else Except;
        LoneWorker.SwapsOut(s0, sh, tid, wk, f, v, st);
        End(f, st);
      }
    }

    /** Lines 183-190 and 200-209: switches into fiber f and, once it has left, queues it again or parks it. */
    method SwapInAndSettle(f: nat, ghost e: Entry, ghost s0: Scheduler.System)
      requires Shape() && f < |states| && Admits(SwapIn, states[f]) && q.active == 1
      requires At(s0, Scheduler.Check(f, e))
      modifies this`states, this`codes, this`programs, q, this`fates
      ensures Shape() && q.active == 0 && Mem() == Visited(old(Mem()), f)
      ensures fates == old(fates) + [Scheduler.Ran(e)]
      ensures f < |states| && At(s0, LoneWorker.SettlePc(states[f], f, e.task.CbTask?))
      ensures Remaining() < old(Remaining()) || (Remaining() == old(Remaining()) && q.entries == old(q.entries))
    {
      LoneWorker.Enters(s0, Sh(), tid, Wk(Scheduler.Check(f, e)), f, e);
      states := states[f := Exec];
      fates := fates + [Scheduler.Ran(e)];
      RunToHas(Mem(), f);
      RunCode(f, e.task.CbTask?, s0);
      SettleFiber(f, e.task.CbTask?, s0);
    }

    /** Lines 184-190 and 201-209: what the loop makes of a fiber that has left. */
    method SettleFiber(f: nat, ghost v: bool, ghost s0: Scheduler.System)
      requires Shape() && f < |states| && states[f] in {Exec, Ready, Term, Except} && q.active == 1
      requires At(s0, Scheduler.Left(f, v))
      modifies this`states, q
      ensures Shape() && q.active == 0 && Mem() == SettledTo(old(Mem()), f)
      ensures f < |states| && At(s0, LoneWorker.SettlePc(states[f], f, v))
      ensures Remaining() == old(Remaining()) && (!Finished(states[f]) || q.entries == old(q.entries))
    {
      LoneWorker.Settles(s0, Sh(), tid, Wk(Scheduler.Left(f, v)), f, v);
      q.active := q.active - 1;
      if states[f] == Ready {
        Submit(FiberTask(f), ANY_THREAD);
      } else if !Finished(states[f]) {
        states := states[f := Hold];
      }
    }

    /** The same, seen from the fibers that are not visited: whoever was queued still is. */
    method Visit(f: nat, ghost e: Entry, ghost s0: Scheduler.System)
      requires Shape() && Traced() && f < |states| && Admits(SwapIn, states[f]) && q.active == 1 && OthersSettled(f)
      requires At(s0, Scheduler.Check(f, e))
      modifies this`states, this`codes, this`programs, q, this`fates
      ensures Shape() && Traced() && q.active == 0 && OthersSettled(f) && Mem() == Visited(old(Mem()), f)
      ensures f < |states| && At(s0, LoneWorker.SettlePc(states[f], f, e.task.CbTask?))
      ensures Finished(states[f]) || states[f] == Hold || (states[f] == Ready && QueuedIn(q.entries, f))
      ensures |states| == |old(states)| && forall g: nat | g < |states| && g != f ::
                states[g] == old(states)[g] && codes[g] == old(codes)[g]
      ensures states[f] == Hold ==> HoldPoint(codes[f], origin[f])
      ensures old(codes)[f] == None ==> states[f] == Except
      ensures Remaining() < old(Remaining()) || (Remaining() == old(Remaining()) && q.entries == old(q.entries))
    {
      VisitedFacts(Mem(), f);
      VisitLeaves(Mem(), f);
      SuffixTwice(Visited(Mem(), f).codes[f], codes[f], origin[f]);
      SwapInAndSettle(f, e, s0);
      QueueGrew(old(q.entries), q.entries);
    }

    /** Lines 183-191: a picked fiber. */
    method RunFiber(f: nat, ghost e: Entry, ghost s0: Scheduler.System)
      requires Shape() && Traced() && CbOk() && OthersSettled(f) && q.active == 1
      requires f < |states| && Admits(SwapIn, states[f])
      requires e.task == FiberTask(f) && At(s0, Scheduler.Check(f, e))
      modifies this`states, this`codes, this`programs, q, this`fates
      ensures Shape() && Traced() && CbOk() && AllSettled() && q.active == 0 && At(s0, Scheduler.Loop)
      ensures Mem() == Visited(old(Mem()), f)
      ensures Remaining() < old(Remaining()) || (Remaining() == old(Remaining()) && q.entries == old(q.entries))
    {
      Visit(f, e, s0);
    }

    /** Lines 194-198: a fiber for the callback, recycled or new. */
    method PrepareCb(c: nat, ghost e: Entry, ghost s0: Scheduler.System) returns (f: nat)
      requires Shape() && Traced() && CbOk() && c < |programs|
      requires AllSettled()
      requires At(s0, Scheduler.Prepare(e))
      modifies this`states, this`codes, this`cbFiber, this`origin
      ensures Shape() && Traced() && OthersSettled(f) && f < |states| && states[f] == Init && cbFiber == Some(f)
      ensures f == CbFiberFor(old(Mem()), old(cbFiber)) && Mem() == Prepared(old(Mem()), old(cbFiber), programs[c])
      ensures At(s0, Scheduler.Check(f, e))
      ensures Remaining() <= old(Remaining()) + Size(programs[c])
    {
      LoneWorker.Advances(s0, Sh(), tid, Wk(Scheduler.Prepare(e)));
      ghost var o := Scheduler.Advanced(Sh(), tid, Wk(Scheduler.Prepare(e)));
      match cbFiber {
        case Some(g) =>
          f := g;
          AssignCode(f, programs[c]);
        case None =>
          f := |states|;
          AddFiber(programs[c]);
      }
      assert Sh() == o.sh && Wk(Scheduler.Check(f, e)) == o.wk;
    }

    /** Line 195: the recycled fiber gets the callback. */
    method AssignCode(f: nat, code: seq<Op>)
      requires Shape() && Traced() && CbOk() && AllSettled() && code in programs && cbFiber == Some(f)
      modifies this`states, this`codes, this`origin
      ensures Shape() && Traced() && OthersSettled(f) && Mem() == Prepared(old(Mem()), Some(f), code)
      ensures Remaining() == old(Remaining()) - Weight(old(codes)[f]) + Size(code)
    {
      CodeSizeAt(codes, f, Some(code));
      codes := codes[f := Some(code)];
      origin := origin[f := Some(code)];
      states := states[f := Init];
    }

    /** Line 197: a new fiber for the callback. */
    method AddFiber(code: seq<Op>)
      requires Shape() && Traced() && AllSettled() && code in programs && cbFiber == None
      modifies this`states, this`codes, this`cbFiber, this`origin
      ensures Shape() && Traced() && OthersSettled(|old(states)|) && cbFiber == Some(|old(states)|)
      ensures Mem() == Prepared(old(Mem()), None, code)
      ensures Remaining() == old(Remaining()) + Size(code)
    {
      CodeSizeAppend(codes, Some(code));
      AddedTraced(first, origin, codes, programs, code);
      AddedSettled(states, codes, origin, q.entries, dormant, code);
      codes := codes + [Some(code)];
      origin := origin + [Some(code)];
      states := states + [Init];
      cbFiber := Some(|states| - 1);
    }

    /** Lines 194-211: run a picked callback on the callback fiber. */
    method RunCallback(c: nat, ghost e: Entry, ghost s0: Scheduler.System)
      requires Shape() && Traced() && CbOk() && c < |programs| && q.active == 1
      requires AllSettled()
      requires e.task == CbTask(c) && At(s0, Scheduler.Prepare(e))
      modifies this`states, this`codes, this`programs, this`cbFiber, q, this`fates, this`origin
      ensures Shape() && Traced() && CbOk() && AllSettled() && q.active == 0 && At(s0, Scheduler.Loop)
      ensures var f, m := CbFiberFor(old(Mem()), old(cbFiber)), Prepared(old(Mem()), old(cbFiber), old(programs)[c]);
        var r := Visited(m, f);
        && r.Has(f) && Mem() == GivenBack(r, f) && cbFiber == if Finished(r.states[f]) then Some(f) else None
      ensures Remaining() <= old(Remaining()) + Size(old(programs)[c])
      ensures Remaining() < old(Remaining()) + Size(old(programs)[c]) || q.entries == old(q.entries)
    {
      var f := PrepareCb(c, e, s0);
      Visit(f, e, s0);
      GiveBack(f, s0);
    }

    /** Lines 204-210: the callback fiber is recycled, or given away. */
    method GiveBack(f: nat, ghost s0: Scheduler.System)
      requires Shape() && Traced() && OthersSettled(f) && f < |states| && cbFiber == Some(f) && q.active == 0
      requires states[f] == Hold ==> HoldPoint(codes[f], origin[f])
      requires Finished(states[f]) || states[f] == Hold || (states[f] == Ready && QueuedIn(q.entries, f))
      requires At(s0, if Finished(states[f]) then Scheduler.Recycle(f) else Scheduler.Release(f))
      modifies this`states, this`codes, this`cbFiber
      ensures Shape() && Traced() && CbOk() && AllSettled() && At(s0, Scheduler.Loop)
      ensures Mem() == GivenBack(old(Mem()), f) && cbFiber == if Finished(old(states)[f]) then Some(f) else None
      ensures Remaining() <= old(Remaining())
    {
      if Finished(states[f]) {
        MakeNew(f, s0);
      } else {
        GiveAway(f, s0);
      }
    }

    /** Line 207. */
    method MakeNew(f: nat, ghost s0: Scheduler.System)
      requires Shape() && Traced() && OthersSettled(f) && f < |states| && cbFiber == Some(f)
      requires Finished(states[f]) && At(s0, Scheduler.Recycle(f))
      modifies this`states, this`codes
      ensures Shape() && Traced() && CbOk() && AllSettled() && At(s0, Scheduler.Loop)
      ensures Mem() == Stopped(old(Mem()), f, None, Init) && Remaining() <= old(Remaining())
    {
      LoneWorker.Advances(s0, Sh(), tid, Wk(Scheduler.Recycle(f)));
      MadeNewSettled(f, states, codes, origin, q.entries, dormant);
      MadeNewTraced(f, first, origin, codes, programs, cbFiber);
      End(f, Init);
    }

    /** Lines 204 and 210. */
    method GiveAway(f: nat, ghost s0: Scheduler.System)
      requires Shape() && Traced() && OthersSettled(f) && f < |states| && cbFiber == Some(f)
      requires (states[f] == Hold && HoldPoint(codes[f], origin[f])) || (states[f] == Ready && QueuedIn(q.entries, f))
      requires At(s0, Scheduler.Release(f))
      modifies this`cbFiber
      ensures Shape() && Traced() && CbOk() && AllSettled() && cbFiber == None && At(s0, Scheduler.Loop)
    {
      LoneWorker.Advances(s0, Sh(), tid, Wk(Scheduler.Release(f)));
      cbFiber := None;
    }

    method Stopping() returns (b: bool)
      ensures b <==> autoStop && stopping && q.entries == [] && q.active == 0
    {
      b := autoStop && stopping && q.entries == [] && q.active == 0;
    }

    /** Lines 222-228: one visit to the idle fiber, which polls stopping() once. */
    method Idle(ghost s0: Scheduler.System)
      requires AtLoopHead() && idle != Term && At(s0, Scheduler.NoPick)
      modifies this`idle, this`idling
      ensures AtLoopHead() && idle == (if q.entries == [] then Term else Hold) && At(s0, Scheduler.Loop)
    {
      LoneWorker.Idles(s0, Sh(), tid, Wk(Scheduler.NoPick));
      idling := idling + 1;
      idle := Exec;
      var stop := Stopping();
      if stop {
        idle := Term;
      }
      idling := idling - 1;
      if !Finished(idle) {
        idle := Hold;
      }
    }

    /** The scan; with no task pinned elsewhere and no fiber running it takes the first entry. */
    method Scan(ghost s0: Scheduler.System) returns (ft: Option<Entry>)
      requires AtLoopHead() && At(s0, Scheduler.Loop)
      modifies q`entries, q`active
      ensures ft.None? ==> old(q.entries) == [] && q.entries == [] && q.active == 0
      ensures ft.Some? ==> old(q.entries) != [] && ft.value == old(q.entries)[0] && q.entries == old(q.entries)[1..]
                           && q.active == 1
      ensures ft.Some? ==> Remaining() == old(Remaining()) - EntrySize(ft.value, programs)
                           && !RunsNow(ft.value, states)
      ensures Shape() && Traced() && At(s0, if ft.Some? then Scheduler.Picked(ft.value) else Scheduler.NoPick)
      ensures AllSettledBut(Fibered(ft), states, codes, origin, q.entries, cbFiber, dormant)
    {
      ghost var before := q.entries;
      LoneWorker.Advances(s0, Sh(), tid, Wk(Scheduler.Loop));
      if before != [] {
        FirstIsTaken(before, states, codes, programs, origin, cbFiber, dormant, tid);
      }
      var tickleMe;
      ft, tickleMe := q.Pick(tid, states);
    }

    ghost predicate Shrunk(before: (nat, nat, bool))
      reads this, q
    {
      || Remaining() < before.0
      || (Remaining() == before.0 && |q.entries| < before.1)
      || (Remaining() == before.0 && |q.entries| == before.1 && before.2 && idle == Term)
    }

    /** One iteration of the loop, lines 149-229; true when it breaks out. */
    method Turn(ghost s0: Scheduler.System) returns (done: bool)
      requires AtLoopHead() && At(s0, Scheduler.Loop)
      modifies this`states, this`codes, this`programs, this`cbFiber, this`idle, this`idling, this`fates, this`origin, q
      ensures AtLoopHead() && At(s0, if done then Scheduler.Gone else Scheduler.Loop)
      ensures done ==> q.entries == [] && idle == Term
      ensures !done ==> Shrunk((old(Remaining()), |old(q.entries)|, old(idle) != Term))
    {
      done := false;
      var ft := Scan(s0);
      if ft.Some? {
        RunPicked(ft.value, s0);
      } else if idle == Term {
        LoneWorker.Advances(s0, Sh(), tid, Wk(Scheduler.NoPick));
        done := true;
      } else {
        Idle(s0);
      }
    }

    /** Lines 181-215 with an entry in hand. */
    method RunPicked(e: Entry, ghost s0: Scheduler.System)
      requires Shape() && Traced() && CbOk() && q.active == 1 && idling == 0 && (idle == Init || idle == Hold || idle == Term)
      requires match e.task case FiberTask(f) => f < |states| && states[f] != Exec case CbTask(c) => c < |programs|
      requires AllSettledBut(Fibered(Some(e)), states, codes, origin, q.entries, cbFiber, dormant)
      requires At(s0, Scheduler.Picked(e))
      modifies this`states, this`codes, this`programs, this`cbFiber, this`fates, this`origin, q
      ensures AtLoopHead() && At(s0, Scheduler.Loop)
      ensures var before := old(Remaining()) + EntrySize(e, old(programs));
        Remaining() < before || (Remaining() == before && q.entries == old(q.entries))
    {
      if e.task.CbTask? {
        CallbackPicked(e, s0);
      } else if !Finished(states[e.task.fiber]) {
        FiberPicked(e, s0);
      } else {
        Drop(e, s0);
      }
    }

    /** Line 181 with a fiber that has not finished. */
    method FiberPicked(e: Entry, ghost s0: Scheduler.System)
      requires e.task.FiberTask? && e.task.fiber < |states| && Admits(SwapIn, states[e.task.fiber])
      requires Shape() && Traced() && CbOk() && q.active == 1 && OthersSettled(e.task.fiber)
      requires At(s0, Scheduler.Picked(e))
      modifies this`states, this`codes, this`programs, this`fates, q
      ensures Shape() && Traced() && CbOk() && AllSettled() && q.active == 0 && At(s0, Scheduler.Loop)
      ensures Remaining() < old(Remaining()) || (Remaining() == old(Remaining()) && q.entries == old(q.entries))
    {
      LoneWorker.Advances(s0, Sh(), tid, Wk(Scheduler.Picked(e)));
      RunFiber(e.task.fiber, e, s0);
    }

    /** Line 193. */
    method CallbackPicked(e: Entry, ghost s0: Scheduler.System)
      requires e.task.CbTask? && e.task.cb < |programs|
      requires Shape() && Traced() && CbOk() && q.active == 1 && AllSettled()
      requires At(s0, Scheduler.Picked(e))
      modifies this`states, this`codes, this`programs, this`cbFiber, this`fates, this`origin, q
      ensures Shape() && Traced() && CbOk() && AllSettled() && q.active == 0 && At(s0, Scheduler.Loop)
      ensures var before := old(Remaining()) + EntrySize(e, old(programs));
        Remaining() < before || (Remaining() == before && q.entries == old(q.entries))
    {
      LoneWorker.Advances(s0, Sh(), tid, Wk(Scheduler.Picked(e)));
      RunCallback(e.task.cb, e, s0);
    }

    /** Lines 213-215: the fiber of the entry has finished. */
    method Drop(e: Entry, ghost s0: Scheduler.System)
      requires e.task.FiberTask? && e.task.fiber < |states| && Finished(states[e.task.fiber]) && q.active == 1
      requires At(s0, Scheduler.Picked(e))
      modifies this`fates, q`active
      ensures At(s0, Scheduler.Loop) && q.active == 0
    {
      LoneWorker.Drops(s0, Sh(), tid, Wk(Scheduler.Picked(e)), e);
      fates := fates + [Scheduler.Dropped(e, states[e.task.fiber])];
      q.active := q.active - 1;
    }

    /** Lines 148-230. */
    method Loop(ghost s0: Scheduler.System)
      requires AtLoopHead() && At(s0, Scheduler.Loop)
      modifies this`states, this`codes, this`programs, this`cbFiber, this`idle, this`idling, this`fates, this`origin, q
      ensures AtLoopHead() && At(s0, Scheduler.Gone) && q.entries == [] && idle == Term
    {
      var done := false;
      while !done
        invariant AtLoopHead() && At(s0, if done then Scheduler.Gone else Scheduler.Loop)
        invariant done ==> q.entries == [] && idle == Term
        decreases !done, Remaining(), |q.entries|, idle != Term
      {
        done := Turn(s0);
      }
    }

    /** Lines 144-145. */
    method Begin()
      requires Shape() && q.active == 0 && idling == 0
      requires forall f: nat | f < |states| :: states[f] != Exec && (states[f] == Ready ==> QueuedIn(q.entries, f))
      modifies this`idle, this`cbFiber, this`first, this`origin, this`dormant
      ensures AtLoopHead() && Wk(Scheduler.Loop) == Scheduler.START_WORKER && first == codes
      ensures dormant == set f: nat | f < |states| && !QueuedIn(q.entries, f)
    {
      idle := Init;
      cbFiber := None;
      first, origin := codes, codes;
      dormant := set f: nat | f < |states| && !QueuedIn(q.entries, f);
    }

    /**
     The worker loop.  It terminates; it is a run of the transition system that ends
     with the worker gone; and when it does the queue is empty, the counters are back
     at zero, and every fiber is finished, parked with nobody having woken it, the
     callback fiber kept for recycling, or one that was not scheduled when the run
     began and has not been started since.  A fiber left parked has stopped at a
     YieldHold of its code, or was parked and not queued when the run began and has not
     been touched; so one that was queued, and whose code holds no YieldHold, has
     finished.  Every entry accepted before or meanwhile
     has been run exactly once, or dropped as that of a finished fiber.
     */
    method Run() returns (ghost s0: Scheduler.System)
      requires Shape() && q.active == 0 && idling == 0
      requires forall f: nat | f < |states| :: states[f] != Exec && (states[f] == Ready ==> QueuedIn(q.entries, f))
      modifies this, q
      ensures s0 == LoneWorker.Lone(old(Sh()), tid, Scheduler.START_WORKER) && At(s0, Scheduler.Gone)
      ensures Accounting.Conserved(s0) ==> AllDisposedOf(fates, q.accepted)
      ensures q.entries == [] && q.active == 0 && idling == 0
      ensures forall f: nat | f < |states| ::
                || Finished(states[f]) || states[f] == Hold
                || (states[f] == Init && (cbFiber == Some(f) || (f < |old(states)| && !QueuedIn(old(q.entries), f))))
      ensures |codes| == |origin| == |states| && old(codes) <= origin
      ensures forall f: nat | |old(codes)| <= f < |origin| :: origin[f].Some? && origin[f].value in programs
      ensures forall f: nat | f < |states| && states[f] == Hold ::
                || HoldPoint(codes[f], origin[f])
                || (f < |old(states)| && codes[f] == old(codes)[f] && !QueuedIn(old(q.entries), f))
      ensures forall f: nat | f < |old(states)| && QueuedIn(old(q.entries), f) && NeverHolds(old(codes)[f]) ::
                f < |states| && Finished(states[f])
      ensures Destructible(idle)
      ensures cbFiber.Some? ==> cbFiber.value < |states| && Destructible(states[cbFiber.value])
    {
      Begin();
      s0 := LoneWorker.Lone(Sh(), tid, Wk(Scheduler.Loop));
      Scheduler.ReachSelf(s0);
      Loop(s0);
      if Accounting.Conserved(s0) {
        NothingLeft(s0, Sh(), tid, Wk(Scheduler.Gone));
      }
    }
  }
}
