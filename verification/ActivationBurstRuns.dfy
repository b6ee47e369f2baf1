/** The burst limiter in executions of the registry. */
module ActivationBurstRuns {
  import opened Basics
  import opened ActivationTables
  import opened ActivationProtocol
  import opened ActivationSafety
  import opened ActivationTheorems
  import opened ActivationTraces
  import opened ActivationBurst
  import opened ActivationBurstVerdicts

  // The registry's table is the table of its calls.

  function BurstsAfter(bursts: Bursts, calls: seq<Call>): Bursts
    requires |calls| <= 1
  {
    if calls == [] then bursts else CheckBurst(bursts, calls[0].counter, calls[0].id, calls[0].now).0
  }

  lemma {:induction false} AccessBursts(store: Store, clock: nat, task: Task)
    ensures var call := CallOf(store, task);
      StoreOf(store, AccessMove(store, clock, task)).bursts ==
      BurstsAfter(store.bursts, if call.Some? then [call.value] else [])
  {
  }

  lemma {:induction false} WorkBursts(store: Store, clock: nat, task: Task, input: Input)
    ensures var call := CallOf(store, task);
      StoreOf(store, Work(store, clock, task, input)).bursts ==
      BurstsAfter(store.bursts, if input.Access? && call.Some? then [call.value] else [])
  {
    AccessBursts(store, clock, task);
  }

  lemma {:induction false} BurstsStep(s: State, e: Event, s': State)
    requires Step(s, e) == Some(s')
    ensures s'.store.bursts == BurstsAfter(s.store.bursts, CallsIn(s, e))
  {
    if e.Perform? {
      WorkBursts(s.store, s.now, s.tasks[e.id], e.input);
    }
  }

  ghost predicate SameTable(calls: seq<Call>, more: seq<Call>, n: nat)
    requires n <= |calls|
  {
    Table(calls + more, n) == Table(calls, n)
  }

  lemma {:induction false} SameTableNext(calls: seq<Call>, more: seq<Call>, n: nat)
    requires 0 < n <= |calls| && SameTable(calls, more, n - 1)
    ensures SameTable(calls, more, n)
  {
    assert (calls + more)[n - 1] == calls[n - 1];
  }

  lemma {:induction false} TablePrefix(calls: seq<Call>, more: seq<Call>, n: nat)
    requires n <= |calls|
    ensures SameTable(calls, more, n)
  {
    if n > 0 {
      TablePrefix(calls, more, n - 1);
      SameTableNext(calls, more, n);
    }
  }

  ghost predicate TableIs(calls: seq<Call>, n: nat, bursts: Bursts) {
    n <= |calls| && Table(calls, n) == bursts
  }

  /** The registry's burst table is the one these calls leave. */
  ghost predicate Tabled(s: State, calls: seq<Call>) {
    forall n: nat :: n == |calls| ==> TableIs(calls, n, s.store.bursts)
  }

  lemma {:induction false} TabledCall(s: State, calls: seq<Call>, e: Event, s': State)
    requires Tabled(s, calls) && Step(s, e) == Some(s') && |CallsIn(s, e)| == 1
    ensures Tabled(s', calls + CallsIn(s, e))
  {
    var call, n := CallsIn(s, e)[0], |calls|;
    BurstsStep(s, e, s');
    assert TableIs(calls, n, s.store.bursts);
    TablePrefix(calls, [call], n);
    assert (calls + [call])[n] == call;
    assert TableIs(calls + [call], n + 1, s'.store.bursts);
  }

  lemma {:induction false} TabledStep(s: State, calls: seq<Call>, e: Event, s': State)
    requires Tabled(s, calls) && Step(s, e) == Some(s')
    ensures Tabled(s', calls + CallsIn(s, e))
  {
    if CallsIn(s, e) == [] {
      BurstsStep(s, e, s');
      assert calls + [] == calls;
    } else {
      TabledCall(s, calls, e, s');
    }
  }

  /** In every execution the limiter's table is what its calls so far make of it. */
  lemma {:induction false} BurstsAreTable(t: Trace, n: nat)
    requires IsTrace(t) && n <= |t.events|
    ensures Tabled(t.states[n], Calls(t, n))
  {
    if n > 0 {
      BurstsAreTable(t, n - 1);
      assert SteppedAt(t, n - 1);
      TabledStep(t.states[n - 1], Calls(t, n - 1), t.events[n - 1], t.states[n]);
    }
  }

  lemma {:induction false} AskedHonest(s: State, calls: seq<Call>, e: Event)
    requires Tabled(s, calls) && CallsIn(s, e) != []
    ensures |CallsIn(s, e)| == 1 && HonestAt(calls + CallsIn(s, e), |calls|)
  {
    assert TableIs(calls, |calls|, s.store.bursts);
    TablePrefix(calls, CallsIn(s, e), |calls|);
    assert AnsweredSo(calls + CallsIn(s, e), |calls|);
  }

  lemma {:induction false} HonestPrefix(calls: seq<Call>, more: seq<Call>, n: nat)
    requires n < |calls| && HonestAt(calls, n)
    ensures HonestAt(calls + more, n)
  {
    assert AnsweredSo(calls, n);
    TablePrefix(calls, more, n);
    assert AnsweredSo(calls + more, n);
  }

  lemma {:induction false} HonestOneMore(calls: seq<Call>, more: seq<Call>)
    requires Honest(calls) && |more| <= 1 && (more != [] ==> HonestAt(calls + more, |calls|))
    ensures Honest(calls + more)
  {
    forall i: nat | i < |calls + more|
      ensures HonestAt(calls + more, i)
    {
      if i < |calls| {
        assert HonestAt(calls, i);
        HonestPrefix(calls, more, i);
      }
    }
  }

  lemma {:induction false} HonestStep(s: State, calls: seq<Call>, e: Event)
    requires Tabled(s, calls) && Honest(calls)
    ensures Honest(calls + CallsIn(s, e))
  {
    if CallsIn(s, e) != [] {
      AskedHonest(s, calls, e);
    }
    HonestOneMore(calls, CallsIn(s, e));
  }

  ghost predicate HonestTo(t: Trace, n: nat) {
    n <= |t.events| && n <= |t.states| && Honest(Calls(t, n))
  }

  lemma {:induction false} HonestNext(t: Trace, n: nat)
    requires IsTrace(t) && 0 < n <= |t.events| && HonestTo(t, n - 1)
    ensures HonestTo(t, n)
  {
    BurstsAreTable(t, n - 1);
    HonestStep(t.states[n - 1], Calls(t, n - 1), t.events[n - 1]);
  }

  /** In every execution the record of each call is honest. */
  lemma {:induction false} RunHonest(t: Trace, n: nat)
    requires IsTrace(t) && n <= |t.events|
    ensures HonestTo(t, n)
  {
    if n > 0 {
      RunHonest(t, n - 1);
      HonestNext(t, n);
    }
  }

  // A peer's calls come in the order of their clocks.

  function Clock(stage: Stage): Option<nat> {
    match stage
    case Maintaining(now) => Some(now)
    case Sweeping(now) => Some(now)
    case Expiring(now) => Some(now)
    case Checking(now) => Some(now)
    case Bursting(now, _, _) => Some(now)
    case _ => None
  }

  ghost predicate PeerOrder(calls: seq<Call>) {
    forall i, j :: 0 <= i <= j < |calls| && calls[i].id.peer == calls[j].id.peer ==> calls[i].now <= calls[j].now
  }

  /** The clock a task carries is behind the registry's and not behind any call its peer has made. */
  ghost predicate ClockOk(task: Task, now: nat, calls: seq<Call>) {
    Clock(task.stage).Some? ==>
      && Clock(task.stage).value <= now
      && forall i :: 0 <= i < |calls| && calls[i].id.peer == task.peer ==> calls[i].now <= Clock(task.stage).value
  }

  ghost predicate ClocksOk(s: State, calls: seq<Call>) {
    && PeerOrder(calls) && (forall i :: 0 <= i < |calls| ==> calls[i].now <= s.now)
    && (forall t :: t in s.tasks ==> ClockOk(s.tasks[t], s.now, calls))
  }

  lemma {:induction false} WorkClock(store: Store, clock: nat, task: Task, input: Input)
    ensures var move := Work(store, clock, task, input);
      move.Continue? && Clock(move.stage).Some? ==> Clock(move.stage) == Clock(task.stage) && CallOf(store, task).None?
    ensures CallOf(store, task).Some? ==>
      Clock(task.stage) == Some(CallOf(store, task).value.now) && CallOf(store, task).value.id.peer == task.peer
  {
  }

  /** A call is no earlier than its peer's, and leaves its own task without a clock. */
  lemma {:induction false} ClocksCall(s: State, calls: seq<Call>, t: TaskId, s': State)
    requires LocksAgree(s) && ClocksOk(s, calls) && Step(s, Perform(t, Access)) == Some(s')
    requires CallOf(s.store, s.tasks[t]).Some?
    ensures ClocksOk(s', calls + [CallOf(s.store, s.tasks[t]).value])
  {
    var task, call := s.tasks[t], CallOf(s.store, s.tasks[t]).value;
    WorkClock(s.store, s.now, task, Access);
    assert ClockOk(task, s.now, calls);
    forall u | u in s'.tasks
      ensures ClockOk(s'.tasks[u], s'.now, calls + [call])
    {
      if u != t && Clock(s.tasks[u].stage).Some? {
        assert ClockOk(s.tasks[u], s.now, calls) && Running(s, u) && Running(s, t);
        assert s.tasks[u].peer != task.peer;
      }
    }
  }

  lemma {:induction false} ClocksPerform(s: State, calls: seq<Call>, t: TaskId, input: Input, s': State)
    requires ClocksOk(s, calls) && Step(s, Perform(t, input)) == Some(s')
    ensures ClocksOk(s', calls)
  {
    WorkClock(s.store, s.now, s.tasks[t], input);
    forall u | u in s'.tasks
      ensures ClockOk(s'.tasks[u], s'.now, calls)
    {
      assert u in s.tasks && ClockOk(s.tasks[u], s.now, calls);
    }
  }

  lemma {:induction false} ClocksStart(s: State, calls: seq<Call>, e: Event, s': State)
    requires LocksAgree(s) && ClocksOk(s, calls) && Step(s, e) == Some(s') && e.Start?
    ensures ClocksOk(s', calls)
  {
    PeerLockKeeps(s, e.peer);
    forall u | u in s'.tasks
      ensures ClockOk(s'.tasks[u], s'.now, calls)
    {
      assert u in s.tasks ==> ClockOk(s.tasks[u], s.now, calls);
    }
  }

  lemma {:induction false} ClocksOther(s: State, calls: seq<Call>, e: Event, s': State)
    requires ClocksOk(s, calls) && Step(s, e) == Some(s') && !e.Perform? && !e.Start?
    ensures ClocksOk(s', calls)
  {
    forall u | u in s'.tasks
      ensures ClockOk(s'.tasks[u], s'.now, calls)
    {
      assert ClockOk(s.tasks[u], s.now, calls);
    }
  }

  lemma {:induction false} ClocksStep(s: State, calls: seq<Call>, e: Event, s': State)
    requires LocksAgree(s) && ClocksOk(s, calls) && Step(s, e) == Some(s')
    ensures ClocksOk(s', calls + CallsIn(s, e))
  {
    assert calls + [] == calls;
    if CallsIn(s, e) != [] {
      ClocksCall(s, calls, e.id, s');
    } else if e.Perform? {
      ClocksPerform(s, calls, e.id, e.input, s');
    } else if e.Start? {
      ClocksStart(s, calls, e, s');
    } else {
      ClocksOther(s, calls, e, s');
    }
  }

  ghost predicate ClocksOkAt(t: Trace, n: nat) {
    n <= |t.events| && n < |t.states| && ClocksOk(t.states[n], Calls(t, n))
  }

  lemma {:induction false} ClocksNext(t: Trace, n: nat)
    requires IsTrace(t) && 0 < n <= |t.events| && ClocksOkAt(t, n - 1) && LocksAgree(t.states[n - 1])
    ensures ClocksOkAt(t, n)
  {
    assert SteppedAt(t, n - 1);
    ClocksStep(t.states[n - 1], Calls(t, n - 1), t.events[n - 1], t.states[n]);
  }

  lemma {:induction false} TraceLocksAgree(t: Trace, n: nat)
    requires IsTrace(t) && n < |t.states|
    ensures LocksAgree(t.states[n])
  {
    TraceIsRun(t);
    ReachableInv(t.states, n);
  }

  lemma {:induction false} ClocksAlwaysOk(t: Trace, n: nat)
    requires IsTrace(t) && n <= |t.events|
    ensures ClocksOkAt(t, n)
  {
    if n > 0 {
      ClocksAlwaysOk(t, n - 1);
      TraceLocksAgree(t, n - 1);
      ClocksNext(t, n);
    }
  }

  /** In every execution the limiter's calls of one identity come in the order of their clocks. */
  lemma {:induction false} RunOwnOrder(t: Trace, n: nat, id: Identity)
    requires IsTrace(t) && n <= |t.events|
    ensures OwnOrder(Calls(t, n), id)
  {
    ClocksAlwaysOk(t, n);
  }

  /**
   In every execution, any thirteen accepted fast re-registrations of one identity span
   30 seconds or more, unless the last was overtaken by an early prune.
   */
  lemma {:induction false} RunWindowBound(t: Trace, n: nat, id: Identity, i: nat)
    requires IsTrace(t) && n <= |t.events|
    requires i + BURST_LIMIT < |Accepted(Calls(t, n), |Calls(t, n)|, id)|
    ensures Spaced(Calls(t, n), |Calls(t, n)|, id, i)
  {
    RunHonest(t, n);
    RunOwnOrder(t, n, id);
    WindowBound(Calls(t, n), |Calls(t, n)|, id, i);
  }

  /** In every execution, every call sees exactly its window if and only if it was not overtaken. */
  lemma {:induction false} RunWindowSeen(t: Trace, n: nat, c: nat)
    requires IsTrace(t) && n <= |t.events| && c < |Calls(t, n)|
    ensures var calls := Calls(t, n);
      Kept(calls, c) == Recent(Accepted(calls, c, calls[c].id), calls[c].now) <==> !EarlyPruned(calls, c)
  {
    RunHonest(t, n);
    RunOwnOrder(t, n, Calls(t, n)[c].id);
    WindowSeenIff(Calls(t, n), c);
  }
}
