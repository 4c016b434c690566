/**
 The fiber of primo/fiber.cpp: its life cycle as a function on states, and the
 class whose methods perform the transitions.  A context switch is modelled by
 its effect on the thread-local "current fiber" and on the fiber's own state.
 */
module Fibers {
  import opened Sequences
  import opened Wrappers

  datatype State = Init | Hold | Exec | Term | Ready | Except

  predicate Finished(s: State) {
    s == Term || s == Except
  }

  /** What can happen to a fiber.  Park is the HOLD write of the scheduler loop. */
  datatype Event = SwapIn | YieldReady | Return | Throw | Park | Reset

  /** The assertions of fiber.cpp, including the "never reach" one after the callback ended. */
  predicate Admits(ev: Event, s: State) {
    match ev
    case SwapIn => s != Exec && !Finished(s)
    case YieldReady => s == Exec
    case Return => s == Exec
    case Throw => s == Exec
    case Park => s == Exec
    case Reset => Finished(s) || s == Init
  }

  function After(ev: Event): State {
    match ev
    case SwapIn => Exec
    case YieldReady => Ready
    case Return => Term
    case Throw => Except
    case Park => Hold
    case Reset => Init
  }

  /** The state of a fiber destroyed without tripping an assertion of the destructor. */
  predicate Destructible(s: State) {
    s == Init || Finished(s)
  }

  /** The states the assertions of fiber.cpp allow, one by one (lines 92-94, 114-116, 167, 198 and 255). */
  lemma AllowedStates(s: State)
    ensures Admits(SwapIn, s) <==> s in {Init, Hold, Ready}
    ensures Admits(Reset, s) <==> s in {Init, Term, Except}
    ensures Destructible(s) <==> s in {Init, Term, Except}
    ensures forall ev :: ev != SwapIn && ev != Reset ==> (Admits(ev, s) <==> s == Exec)
    ensures After(SwapIn) == Exec && After(YieldReady) == Ready && After(Park) == Hold && After(Reset) == Init
    ensures After(Return) == Term && After(Throw) == Except
  {
  }

  ghost predicate Admitted(evs: seq<Event>) {
    evs == [] ||
    (Admitted(evs[..|evs| - 1]) && Admits(evs[|evs| - 1], Last(evs[..|evs| - 1])))
  }

  ghost function Last(evs: seq<Event>): State {
    if evs == [] then Init else After(evs[|evs| - 1])
  }

  ghost function Count(evs: seq<Event>, want: Event -> bool): nat {
    if evs == [] then 0
    else Count(evs[..|evs| - 1], want) + if want(evs[|evs| - 1]) then 1 else 0
  }

  /**
   In every history the assertions let through, switching in and leaving
   alternate: the fiber has been entered exactly once more than it has been left
   while it runs, and as often otherwise.
   */
  lemma {:induction false} EntriesAlternateWithExits(evs: seq<Event>)
    requires Admitted(evs)
    ensures Count(evs, (e: Event) => e == SwapIn)
         == Count(evs, (e: Event) => e != SwapIn && e != Reset) + if Last(evs) == Exec then 1 else 0
  {
    if evs != [] {
      EntriesAlternateWithExits(evs[..|evs| - 1]);
    }
  }

  /**
   A finished fiber comes back only through Reset: from the moment a callback
   ends until the next entry, a Reset was performed.
   */
  lemma {:induction false} FinishedNeedsReset(evs: seq<Event>, i: nat, j: nat)
    requires Admitted(evs)
    requires i < j < |evs| && Finished(After(evs[i])) && evs[j] == SwapIn
    ensures exists k :: i < k < j && evs[k] == Reset
    decreases j
  {
    var n := |evs|;
    AdmittedPrefix(evs, j + 1);
    AdmittedPrefix(evs, j);
    assert evs[..j + 1][..j] == evs[..j];
    var prior := evs[j - 1];
    assert evs[..j][j - 1] == prior;
    if prior == Reset {
      assert i < j - 1;
      assert evs[j - 1] == Reset;
    } else if i < j - 1 {
      assert !Finished(After(prior));
      var k := LastEntry(evs, i, j - 1);
      if evs[k] == SwapIn {
        FinishedNeedsReset(evs, i, k);
      }
    }
  }

  /** Between a finished state and a later unfinished one lies an entry or a Reset. */
  lemma {:induction false} LastEntry(evs: seq<Event>, i: nat, j: nat) returns (k: nat)
    requires Admitted(evs) && i < j < |evs|
    requires Finished(After(evs[i])) && !Finished(After(evs[j]))
    ensures i < k <= j && (evs[k] == SwapIn || evs[k] == Reset)
    decreases j
  {
    if evs[j] == SwapIn || evs[j] == Reset {
      k := j;
    } else {
      AdmittedPrefix(evs, j + 1);
      assert evs[..j + 1][..j] == evs[..j];
      assert evs[..j][j - 1] == evs[j - 1];
      assert After(evs[j - 1]) == Exec;
      k := LastEntry(evs, i, j - 1);
    }
  }

  lemma {:induction false} AdmittedPrefix(evs: seq<Event>, n: nat)
    requires Admitted(evs) && n <= |evs|
    ensures Admitted(evs[..n])
    decreases |evs|
  {
    if n == |evs| {
      assert evs[..n] == evs;
    } else {
      AdmittedPrefix(evs[..|evs| - 1], n);
      assert evs[..|evs| - 1][..n] == evs[..n];
    }
  }

  lemma AdmittedAppend(evs: seq<Event>, ev: Event)
    requires Admitted(evs) && Admits(ev, Last(evs))
    ensures Admitted(evs + [ev]) && Last(evs + [ev]) == After(ev)
  {
    Joined(evs, [ev]);
  }

  /** The per-thread pointers t_fiber and t_threadFiber. */
  class ThreadContext {
    var current: Fiber?
    var home: Fiber?

    constructor ()
      ensures current == null && home == null
    {
      current, home := null, null;
    }

    /** The current fiber; the first call on a thread makes the thread's own fiber. */
    method GetThis() returns (f: Fiber)
      modifies this
      ensures current == f
      ensures old(current) != null ==> f == old(current) && home == old(home)
      ensures old(current) == null ==>
        fresh(f) && home == f && f.state == Exec && !f.hasStack && f.callback == None
    {
      if current != null {
        f := current;
      } else {
        f := new Fiber.Main();
        current := f;
        home := f;
      }
    }
  }

  /** A fiber; callbacks are named by numbers.  The history of events is ghost. */
  class Fiber {
    const hasStack: bool
    var state: State
    var callback: Option<nat>
    ghost var events: seq<Event>

    /** The fiber's history is one the assertions admit, and has led to its state. */
    ghost predicate Lived()
      reads this
    {
      hasStack && Admitted(events) && Last(events) == state
    }

    constructor (cb: Option<nat>)
      ensures Lived() && events == [] && state == Init && callback == cb
    {
      hasStack, state, callback, events := true, Init, cb, [];
    }

    constructor Main()
      ensures state == Exec && callback == None && !hasStack
    {
      hasStack, state, callback, events := false, Exec, None, [];
    }

    method Reset(cb: Option<nat>)
      requires hasStack && Admits(Event.Reset, state)
      modifies this
      ensures state == Init && callback == cb && events == old(events) + [Event.Reset]
      ensures old(Lived()) ==> Lived()
    {
      if Lived() {
        AdmittedAppend(events, Event.Reset);
      }
      callback := cb;
      state := Init;
      events := events + [Event.Reset];
    }

    /**
     Runs until the fiber's code is about to continue on this thread.  A finished
     fiber passes the assertion too, but what continues there is the one that can
     never be reached (line 255), and its history ends.
     */
    method SwapIn(t: ThreadContext) returns (lives: bool)
      requires state != Exec && t.home != null
      modifies this`state, this`events, t`current
      ensures state == Exec && t.current == this && (lives <==> !Finished(old(state)))
      ensures events == old(events) + if lives then [Event.SwapIn] else []
      ensures old(Lived()) && lives ==> Lived()
    {
      lives := !Finished(state);
      if lives && Lived() {
        AdmittedAppend(events, Event.SwapIn);
      }
      t.current := this;
      if lives {
        events := events + [Event.SwapIn];
      } else {
        EmptyRight(events);
      }
      state := Exec;
    }

    method SwapOut(t: ThreadContext)
      requires t.home != null
      modifies t`current
      ensures t.current == t.home
    {
      t.current := t.home;
    }

    /** The state the running code writes before it leaves. */
    method Write(ev: Event)
      requires Admits(ev, state)
      modifies this`state, this`events
      ensures state == After(ev) && events == old(events) + [ev]
      ensures old(Lived()) ==> Lived()
    {
      if Lived() {
        AdmittedAppend(events, ev);
      }
      state := After(ev);
      events := events + [ev];
    }
  }

  /** On a thread without a fiber it is the thread's own new fiber that becomes ready. */
  method YieldToReady(t: ThreadContext)
    requires t.current != null ==> t.home != null && Admits(YieldReady, t.current.state)
    modifies t, if t.current != null then {t.current} else {}
    ensures t.home != null && t.current == t.home
    ensures old(t.current) != null ==>
      && old(t.current).state == Ready && old(t.current).callback == old(t.current.callback)
      && t.home == old(t.home) && (old(t.current.Lived()) ==> old(t.current).Lived())
    ensures old(t.current) == null ==> fresh(t.home) && t.home.state == Ready
  {
    var cur := t.GetThis();
    cur.Write(YieldReady);
    cur.SwapOut(t);
  }

  /** The state stays Exec; the scheduler loop writes Hold after the switch. */
  method YieldToHold(t: ThreadContext)
    requires t.current != null ==> t.home != null && t.current.state == Exec
    modifies t
    ensures t.home != null && t.current == t.home
    ensures old(t.current) != null ==> t.home == old(t.home)
    ensures old(t.current) == null ==> fresh(t.home) && t.home.state == Exec
  {
    var cur := t.GetThis();
    cur.SwapOut(t);
  }

  /** The tail of MainFunc, after the callback returned or threw. */
  method FinishMain(t: ThreadContext, threw: bool)
    requires t.current != null && t.home != null && t.current.state == Exec
    modifies t, t.current
    ensures old(t.current).state == if threw then Except else Term
    ensures old(t.current).callback == if threw then old(t.current.callback) else None
    ensures t.current == t.home == old(t.home)
    ensures old(t.current.Lived()) ==> old(t.current).Lived()
  {
    var cur := t.GetThis();
    if threw {
      cur.Write(Throw);
    } else {
      cur.callback := None;
      cur.Write(Return);
    }
    cur.SwapOut(t);
  }
}
