/** Executions with their events, what they ask of the burst limiter, and how to exhibit one. */
module ActivationTraces {
  import opened Basics
  import opened ActivationTables
  import opened ActivationProtocol

  datatype Trace = Trace(states: seq<State>, events: seq<Event>)

  ghost predicate SteppedAt(t: Trace, i: nat)
    requires |t.states| == |t.events| + 1 && i < |t.events|
  {
    Step(t.states[i], t.events[i]) == Some(t.states[i + 1])
  }

  ghost predicate IsTrace(t: Trace) {
    && |t.states| == |t.events| + 1 && t.states[0] == INITIAL
    && forall i: nat :: i < |t.events| ==> SteppedAt(t, i)
  }

  lemma {:induction false} TraceIsRun(t: Trace)
    requires IsTrace(t)
    ensures IsRun(t.states)
  {
    forall i: nat | i + 1 < |t.states|
      ensures StepAt(t.states, i)
    {
      assert SteppedAt(t, i);
      assert Leads(t.states[i], t.events[i], t.states[i + 1]);
    }
  }

  // Calls of the burst limiter.

  /** One `check_burst`: who, when, the maintenance counter it happened to read, and whether it was let through. */
  datatype Call = Call(id: Identity, now: nat, counter: nat, passed: bool)

  /** A call on these tables. */
  function Asked(store: Store, id: Identity, now: nat): Call {
    Call(id, now, store.calls, CheckBurst(store.bursts, store.calls, id, now).1.Pass?)
  }

  /** The call a task's next access makes, if it makes one. */
  function CallOf(store: Store, task: Task): Option<Call> {
    if !task.request.Register? || !task.request.fast then None
    else
      var r := task.request;
      if task.stage.Bursting?
      then Some(Asked(store, Identity(task.peer, r.uuid, r.publicKey), task.stage.now))
      else if task.stage.Checking? && r.activationId != [] && Classify(store.leases, task.peer, r).Reuse?
      then Some(Asked(store, Identity(task.peer, r.uuid, r.publicKey), task.stage.now))
      else None
  }

  function CallsIn(s: State, e: Event): seq<Call> {
    if e.Perform? && e.input.Access? && e.id in s.tasks && CallOf(s.store, s.tasks[e.id]).Some?
    then [CallOf(s.store, s.tasks[e.id]).value] else []
  }

  /** The limiter's calls in the first `n` steps. */
  function Calls(t: Trace, n: nat): seq<Call>
    requires n <= |t.events| && n <= |t.states|
  {
    if n == 0 then [] else Calls(t, n - 1) + CallsIn(t.states[n - 1], t.events[n - 1])
  }

  // Exhibiting executions.

  ghost predicate CallsAre(t: Trace, n: nat, calls: seq<Call>) {
    n <= |t.events| && n <= |t.states| && Calls(t, n) == calls
  }

  ghost predicate Ends(t: Trace, s: State, calls: seq<Call>) {
    IsTrace(t) && t.states[|t.events|] == s && forall n: nat :: n == |t.events| ==> CallsAre(t, n, calls)
  }

  /** Some execution from the empty registry ends in this state, having made these calls. */
  ghost predicate Reaches(s: State, calls: seq<Call>) {
    exists t: Trace :: Ends(t, s, calls)
  }

  lemma {:induction false} ReachesInitial()
    ensures Reaches(INITIAL, [])
  {
    var t := Trace([INITIAL], []);
    assert Calls(t, 0) == [];
    assert Ends(t, INITIAL, []);
  }

  lemma {:induction false} CallsPrefix(t: Trace, t': Trace, n: nat)
    requires n <= |t.events| && n <= |t.states| && |t.events| <= |t'.events| && |t.states| <= |t'.states|
    requires t'.events[..|t.events|] == t.events && t'.states[..|t.states|] == t.states
    ensures Calls(t', n) == Calls(t, n)
  {
    if n > 0 {
      CallsPrefix(t, t', n - 1);
      assert t'.events[n - 1] == t'.events[..|t.events|][n - 1] && t'.states[n - 1] == t'.states[..|t.states|][n - 1];
    }
  }

  lemma {:induction false} ReachesNext(s: State, calls: seq<Call>, e: Event, s': State)
    requires Reaches(s, calls) && Step(s, e) == Some(s')
    ensures Reaches(s', calls + CallsIn(s, e))
  {
    var t: Trace :| Ends(t, s, calls);
    var n, longer := |t.events|, Trace(t.states + [s'], t.events + [e]);
    assert longer.events[..n] == t.events && longer.states[..n + 1] == t.states;
    forall i: nat | i < n + 1
      ensures SteppedAt(longer, i)
    {
      assert i < n ==> SteppedAt(t, i);
    }
    assert CallsAre(t, n, calls);
    CallsPrefix(t, longer, n);
    assert Calls(longer, n + 1) == calls + CallsIn(s, e);
    assert Ends(longer, s', calls + CallsIn(s, e));
  }

  // One request at a time, beside whatever else is going on.

  datatype Actor = Actor(id: TaskId, peer: PeerId, request: Request, lock: Lock)

  function At(a: Actor, stage: Stage): Task {
    Task(a.peer, a.request, a.lock, stage)
  }

  /** The state with this task running at this stage. */
  function Busy(s: State, a: Actor, stage: Stage, store: Store): State {
    s.(tasks := s.tasks[a.id := At(a, stage)], held := s.held[a.lock := a.id], store := store)
  }

  ghost predicate Absent(s: State, a: Actor) {
    a.id !in s.tasks && a.lock !in s.held
  }

  /** The peer's lock is this one, at hand or newly made, and nobody holds it. */
  ghost predicate LockReady(s: State, a: Actor) {
    var s1 := PeerLock(s, a.peer);
    && a.peer in s1.locks && s1.locks[a.peer] == a.lock && s1.held == s.held && s1.tasks == s.tasks
    && s1.store == s.store && s1.now == s.now && Absent(s, a)
  }

  lemma {:induction false} Queue(s: State, calls: seq<Call>, a: Actor)
    requires Reaches(s, calls) && ValidRequest(a.peer, a.request) && LockReady(s, a)
    ensures var s1 := PeerLock(s, a.peer);
      Reaches(s1.(tasks := s1.tasks[a.id := At(a, Waiting)]), calls)
  {
    var s1 := PeerLock(s, a.peer);
    ReachesNext(s, calls, Start(a.id, a.peer, a.request), s1.(tasks := s1.tasks[a.id := At(a, Waiting)]));
    assert calls + [] == calls;
  }

  lemma {:induction false} Admit(s: State, calls: seq<Call>, a: Actor)
    requires Reaches(s.(tasks := s.tasks[a.id := At(a, Waiting)]), calls) && Absent(s, a)
    ensures Reaches(Busy(s, a, FirstStage(a.request, s.now), s.store), calls)
  {
    var waiting := s.(tasks := s.tasks[a.id := At(a, Waiting)]);
    var busy := Busy(s, a, FirstStage(a.request, s.now), s.store);
    assert Step(waiting, Acquire(a.id)).value.tasks == busy.tasks;
    ReachesNext(waiting, calls, Acquire(a.id), busy);
    assert calls + [] == calls;
  }

  /** A valid request on a peer whose lock is free, or can be made, starts running. */
  lemma {:induction false} Begin(s: State, calls: seq<Call>, a: Actor)
    requires Reaches(s, calls) && ValidRequest(a.peer, a.request) && LockReady(s, a)
    ensures Reaches(Busy(PeerLock(s, a.peer), a, FirstStage(a.request, s.now), s.store), calls)
  {
    Queue(s, calls, a);
    Admit(PeerLock(s, a.peer), calls, a);
  }

  lemma {:induction false} Proceed(s: State, calls: seq<Call>, a: Actor, stage: Stage, store: Store, input: Input,
                                   stage': Stage, store': Store)
    requires Reaches(Busy(s, a, stage, store), calls)
    requires Work(store, s.now, At(a, stage), input) == Continue(store', stage')
    ensures var call := CallOf(store, At(a, stage));
      Reaches(Busy(s, a, stage', store'), calls + if input.Access? && call.Some? then [call.value] else [])
  {
    var before, after := Busy(s, a, stage, store), Busy(s, a, stage', store');
    assert Step(before, Perform(a.id, input)).value.tasks == after.tasks;
    ReachesNext(before, calls, Perform(a.id, input), after);
  }

  lemma {:induction false} Retire(s: State, calls: seq<Call>, a: Actor, stage: Stage, store: Store, input: Input,
                                  store': Store)
    requires Reaches(Busy(s, a, stage, store), calls) && Absent(s, a) && !stage.Waiting?
    requires Work(store, s.now, At(a, stage), input) == Finish(store') && CallOf(store, At(a, stage)).None?
    ensures Reaches(s.(store := store'), calls)
  {
    var before, after := Busy(s, a, stage, store), s.(store := store');
    assert Step(before, Perform(a.id, input)).value.tasks == after.tasks;
    assert Step(before, Perform(a.id, input)).value.held == after.held;
    ReachesNext(before, calls, Perform(a.id, input), after);
    assert calls + [] == calls;
  }

  lemma {:induction false} Wait(s: State, calls: seq<Call>, time: nat)
    requires Reaches(s, calls) && s.now <= time
    ensures Reaches(s.(now := time), calls)
  {
    ReachesNext(s, calls, Tick(time), s.(now := time));
    assert calls + [] == calls;
  }
}
