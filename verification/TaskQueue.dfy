/**
 The locked task list of primo/schedule.h: pushing, and the scan that the worker
 loop of primo/schedule.cpp performs under the lock.
 */
module TaskQueue {
  import opened Wrappers
  import opened Fibers

  /** Fibers and callbacks are named by numbers. */
  datatype Task = FiberTask(fiber: nat) | CbTask(cb: nat)

  const ANY_THREAD := -1

  /** A list node; the ticket tells apart nodes with equal contents. */
  datatype Entry = Entry(task: Task, thread: int, ticket: nat)

  function StateOf(states: seq<State>, f: nat): State {
    if f < |states| then states[f] else Init
  }

  predicate PinnedElsewhere(e: Entry, tid: int) {
    e.thread != ANY_THREAD && e.thread != tid
  }

  predicate RunsNow(e: Entry, states: seq<State>) {
    e.task.FiberTask? && StateOf(states, e.task.fiber) == Exec
  }

  predicate Eligible(e: Entry, tid: int, states: seq<State>) {
    !PinnedElsewhere(e, tid) && !RunsNow(e, states)
  }

  /** The index the scan stops at; the length of the list when it runs off the end. */
  function FirstEligible(q: seq<Entry>, tid: int, states: seq<State>): (k: nat)
    ensures k <= |q|
    ensures forall j | 0 <= j < k :: !Eligible(q[j], tid, states)
    ensures k < |q| ==> Eligible(q[k], tid, states)
  {
    if q == [] || Eligible(q[0], tid, states) then 0 else 1 + FirstEligible(q[1..], tid, states)
  }

  predicate QueuedIn(q: seq<Entry>, f: nat) {
    exists i :: 0 <= i < |q| && q[i].task == FiberTask(f)
  }

  function Without(q: seq<Entry>, k: nat): seq<Entry> {
    if k < |q| then q[..k] + q[k + 1..] else q
  }

  /** Whether the scan asks for a wake-up. */
  ghost predicate Tickles(q: seq<Entry>, tid: int, states: seq<State>) {
    var k := FirstEligible(q, tid, states);
    k + 1 < |q| || exists j :: 0 <= j < k && PinnedElsewhere(q[j], tid)
  }

  /**
   Wake-up completeness: whatever the scan leaves behind that some worker could
   run is announced; and a silent scan leaves only fibers that run right now.
   */
  lemma WakeUpComplete(q: seq<Entry>, tid: int, states: seq<State>)
    ensures forall e | e in Without(q, FirstEligible(q, tid, states)) && !RunsNow(e, states) ::
              Tickles(q, tid, states)
  {
    var k := FirstEligible(q, tid, states);
    forall e | e in Without(q, k) && !RunsNow(e, states)
      ensures Tickles(q, tid, states)
    {
      var j :| 0 <= j < |Without(q, k)| && Without(q, k)[j] == e;
      if j < k {
        assert q[j] == e && PinnedElsewhere(q[j], tid);
      }
    }
  }

  /** The scan stays silent exactly when it leaves only entries it passed over, all fibers that run right now. */
  lemma SilentIff(q: seq<Entry>, tid: int, states: seq<State>)
    ensures var k := FirstEligible(q, tid, states);
      !Tickles(q, tid, states) <==>
        k + 1 >= |q| && forall i | 0 <= i < k :: RunsNow(q[i], states) && (q[i].thread == ANY_THREAD || q[i].thread == tid)
  {
    var k := FirstEligible(q, tid, states);
    if !Tickles(q, tid, states) {
      forall i | 0 <= i < k
        ensures RunsNow(q[i], states) && !PinnedElsewhere(q[i], tid)
      {
        assert !Eligible(q[i], tid, states);
      }
    }
  }

  /** The handles of a batch that name a task, in order, as unpinned entries. */
  function BatchEntries(handles: seq<Option<Task>>, ticket: nat): (es: seq<Entry>)
  {
    if handles == [] then []
    else
      var rest := BatchEntries(handles[..|handles| - 1], ticket);
      match handles[|handles| - 1]
      case None => rest
      case Some(t) => rest + [Entry(t, ANY_THREAD, ticket + |rest|)]
  }

  lemma BatchNext(handles: seq<Option<Task>>, k: nat, ticket: nat)
    requires k < |handles|
    ensures var es := BatchEntries(handles[..k], ticket);
      BatchEntries(handles[..k + 1], ticket)
      == match handles[k] case None => es case Some(t) => es + [Entry(t, ANY_THREAD, ticket + |es|)]
  {
    assert handles[..k + 1][..k] == handles[..k];
  }

  /**
   The entries are the handles that name a task, in order and unpinned, with consecutive
   tickets: at lists their positions.
   */
  ghost predicate IsBatch(es: seq<Entry>, handles: seq<Option<Task>>, ticket: nat, at: seq<nat>) {
    && |es| == |at|
    && (forall i | 0 <= i < |at| :: at[i] < |handles| && handles[at[i]].Some?
          && es[i] == Entry(handles[at[i]].value, -1, ticket + i))
    && (forall i, j | 0 <= i < j < |at| :: at[i] < at[j])
    && (forall k | 0 <= k < |handles| && handles[k].Some? :: k in at)
  }

  lemma IsBatchMore(es: seq<Entry>, handles: seq<Option<Task>>, ticket: nat, at: seq<nat>, h: Option<Task>)
    requires IsBatch(es, handles, ticket, at)
    ensures h.None? ==> IsBatch(es, handles + [h], ticket, at)
    ensures h.Some? ==> IsBatch(es + [Entry(h.value, -1, ticket + |es|)], handles + [h], ticket, at + [|handles|])
  {
    assert forall k | 0 <= k < |handles| :: (handles + [h])[k] == handles[k];
    assert (at + [|handles|])[|at|] == |handles|;
    assert forall k :: k in at ==> k in at + [|handles|];
  }

  lemma {:induction false} BatchExact(handles: seq<Option<Task>>, ticket: nat) returns (at: seq<nat>)
    ensures IsBatch(BatchEntries(handles, ticket), handles, ticket, at)
    decreases |handles|
  {
    if handles == [] {
      at := [];
    } else {
      var n := |handles| - 1;
      at := BatchExact(handles[..n], ticket);
      IsBatchMore(BatchEntries(handles[..n], ticket), handles[..n], ticket, at, handles[n]);
      assert handles[..n] + [handles[n]] == handles;
      if handles[n].Some? {
        at := at + [n];
      }
    }
  }

  class Queue {
    var entries: seq<Entry>
    var active: nat
    var accepted: nat

    constructor ()
      ensures entries == [] && active == 0 && accepted == 0
    {
      entries, active, accepted := [], 0, 0;
    }

    /** Appends unless the handle is null; true when the list was empty before. */
    method ScheduleNoLock(task: Option<Task>, thread: int) returns (needTickle: bool)
      modifies this`entries, this`accepted
      ensures needTickle <==> old(entries) == []
      ensures task.None? ==> entries == old(entries) && accepted == old(accepted)
      ensures task.Some? ==>
        entries == old(entries) + [Entry(task.value, thread, old(accepted))] && accepted == old(accepted) + 1
    {
      needTickle := entries == [];
      if task.Some? {
        entries := entries + [Entry(task.value, thread, accepted)];
        accepted := accepted + 1;
      }
    }

    /**
     The batch form: every source handle is swapped out, the tasks are appended
     in order, and one wake-up is asked for exactly when the list was empty and
     the batch was not.
     */
    method ScheduleBatch(handles: array<Option<Task>>) returns (needTickle: bool)
      modifies this`entries, this`accepted, handles
      ensures entries == old(entries) + BatchEntries(old(handles[..]), old(accepted))
      ensures accepted == old(accepted) + |BatchEntries(old(handles[..]), old(accepted))|
      ensures forall i | 0 <= i < handles.Length :: handles[i] == None
      ensures needTickle <==> old(entries) == [] && handles.Length > 0
    {
      needTickle := false;
      ghost var src := handles[..];
      var i := 0;
      while i < handles.Length
        invariant 0 <= i <= handles.Length
        invariant handles[i..] == src[i..]
        invariant forall j | 0 <= j < i :: handles[j] == None
        invariant entries == old(entries) + BatchEntries(src[..i], old(accepted))
        invariant accepted == old(accepted) + |BatchEntries(src[..i], old(accepted))|
        invariant needTickle <==> old(entries) == [] && i > 0
      {
        BatchNext(src, i, old(accepted));
        assert handles[i] == handles[i..][0] == src[i..][0] == src[i];
        var h := handles[i];
        handles[i] := None;
        var first := ScheduleNoLock(h, ANY_THREAD);
        needTickle := first || needTickle;
        i := i + 1;
      }
      assert src[..i] == src;
    }

    /** The scan of the worker loop: removes the first entry this thread may run. */
    method Pick(tid: int, states: seq<State>) returns (ft: Option<Entry>, tickleMe: bool)
      modifies this`entries, this`active
      ensures entries == Without(old(entries), FirstEligible(old(entries), tid, states))
      ensures var k := FirstEligible(old(entries), tid, states);
        if k < |old(entries)| then ft == Some(old(entries)[k]) && active == old(active) + 1
        else ft == None && active == old(active)
      ensures tickleMe <==> Tickles(old(entries), tid, states)
    {
      ft, tickleMe := None, false;
      var it := 0;
      while it < |entries|
        invariant 0 <= it <= |entries|
        invariant it <= FirstEligible(entries, tid, states)
        invariant tickleMe <==> exists j :: 0 <= j < it && PinnedElsewhere(entries[j], tid)
      {
        if PinnedElsewhere(entries[it], tid) {
          it := it + 1;
          tickleMe := true;
        } else if RunsNow(entries[it], states) {
          it := it + 1;
        } else {
          ft := Some(entries[it]);
          entries := entries[..it] + entries[it + 1..];
          active := active + 1;
          tickleMe := tickleMe || it < |entries|;
          return;
        }
      }
    }
  }
}
