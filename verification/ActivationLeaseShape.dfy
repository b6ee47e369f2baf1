/**
 A routed record carries a 32-byte lease token, an unrouted one carries none. The
 registry keeps this in every step but one: a renewal that was begun on a routed
 record and commits after the route was taken away without the peer's lock.
 */
module ActivationLeaseShape {
  import opened Basics
  import opened ActivationTables
  import opened ActivationProtocol
  import opened ActivationTraces
  import opened ActivationSlip

  predicate ShapedLease(lease: Lease) {
    if lease.route.Some? then |lease.routeLease| == ROUTE_LEASE_BYTES else lease.routeLease == []
  }

  ghost predicate ShapedTables(leases: Leases) {
    forall p :: p in leases ==> ShapedLease(leases[p])
  }

  ghost predicate ShapedStage(stage: Stage) {
    stage.Claimed? && stage.claim.tracked ==> |stage.claim.routeLease| == ROUTE_LEASE_BYTES
  }

  ghost predicate Shaped(s: State) {
    ShapedTables(s.store.leases) && forall t :: t in s.tasks ==> ShapedStage(s.tasks[t].stage)
  }

  /** Commits a renewal of a record that has lost its route in the meantime. */
  predicate LostRenewal(leases: Leases, task: Task, input: Input) {
    && input.CommitRoute? && task.stage.Renewing? && task.stage.tracked
    && RenewalApplies(leases, task.peer, task.stage.generation) && leases[task.peer].route.None?
  }

  predicate LosesRenewal(s: State, e: Event) {
    e.Perform? && e.id in s.tasks && LostRenewal(s.store.leases, s.tasks[e.id], e.input)
  }

  lemma {:induction false} DisconnectShaped(leases: Leases, sockets: seq<Disconnection>, now: nat)
    requires ShapedTables(leases)
    ensures ShapedTables(DisconnectSockets(leases, sockets, now))
    decreases |sockets|
  {
    if sockets != [] {
      DisconnectShaped(leases, sockets[..|sockets| - 1], now);
    }
  }

  lemma {:induction false} AccessShaped(store: Store, clock: nat, task: Task)
    requires ShapedTables(store.leases) && ShapedStage(task.stage)
    ensures var move := AccessMove(store, clock, task);
      && (!move.Blocked? ==> ShapedTables(move.store.leases))
      && (move.Continue? ==> ShapedStage(move.stage))
  {
  }

  lemma {:induction false} WorkShaped(store: Store, clock: nat, task: Task, input: Input)
    requires ShapedTables(store.leases) && ShapedStage(task.stage)
    ensures var move := Work(store, clock, task, input);
      && (!move.Blocked? ==> (ShapedTables(move.store.leases) <==> !LostRenewal(store.leases, task, input)))
      && (move.Continue? ==> ShapedStage(move.stage))
  {
    AccessShaped(store, clock, task);
    if LostRenewal(store.leases, task, input) {
      assert !ShapedLease(Work(store, clock, task, input).store.leases[task.peer]);
    }
  }

  /** A step breaks the shape exactly when it commits a lost renewal. */
  lemma {:induction false} ShapedStep(s: State, e: Event, s': State)
    requires Shaped(s) && Step(s, e) == Some(s')
    ensures Shaped(s') <==> !LosesRenewal(s, e)
  {
    if e.Perform? {
      WorkShaped(s.store, s.now, s.tasks[e.id], e.input);
    } else if e.DisconnectNow? {
      DisconnectShaped(s.store.leases, e.sockets, s.now);
    }
  }

  /**
   What a lost renewal leaves behind: no well-formed renewal, deactivation or verification can
   name the record, and registering the same activation again is answered with the empty token.
   */
  lemma {:induction false} LostRenewalStrands(s: State, e: Event, s': State, r: Request, now: nat)
    requires Shaped(s) && LosesRenewal(s, e) && Step(s, e) == Some(s')
    ensures var peer := s.tasks[e.id].peer; var leases := s'.store.leases;
      && (r.Renew? && ValidRequest(peer, r) && r.activationId != [] ==> !RenewalAccepted(leases, peer, r))
      && (r.Deactivate? && ValidRequest(peer, r) ==> !DeactivationAccepted(leases, peer, r))
      && (r.Verify? && ValidRequest(peer, r) ==> !Verified(leases, peer, r))
      && (r.Register? && !r.fast && ValidRequest(peer, r) && r.activationId == leases[peer].activationId != [] &&
          r.uuid == leases[peer].uuid && r.publicKey == leases[peer].publicKey && r.epoch == leases[peer].epoch ==>
            var move := CheckRegister(s'.store, peer, r, now);
            move.Continue? && move.stage.Claimed? && move.stage.claim.routeLease == [])
  {
  }

  // Whole executions.

  lemma {:induction false} ShapedSoFar(t: Trace, n: nat)
    requires IsTrace(t) && n <= |t.events|
    requires forall i: nat :: i < n ==> !LosesRenewal(t.states[i], t.events[i])
    ensures Shaped(t.states[n])
  {
    if n > 0 {
      ShapedSoFar(t, n - 1);
      assert SteppedAt(t, n - 1) && !LosesRenewal(t.states[n - 1], t.events[n - 1]);
      ShapedStep(t.states[n - 1], t.events[n - 1], t.states[n]);
    }
  }

  /** All states of an execution are shaped if and only if none of its steps commits a lost renewal. */
  lemma {:induction false} ShapedThroughout(t: Trace)
    requires IsTrace(t)
    ensures (forall n: nat :: n < |t.states| ==> Shaped(t.states[n])) <==>
            (forall i: nat :: i < |t.events| ==> !LosesRenewal(t.states[i], t.events[i]))
  {
    if forall i: nat :: i < |t.events| ==> !LosesRenewal(t.states[i], t.events[i]) {
      forall n: nat | n < |t.states|
        ensures Shaped(t.states[n])
      {
        ShapedSoFar(t, n);
      }
    } else {
      var i: nat :| i < |t.events| && LosesRenewal(t.states[i], t.events[i]);
      assert SteppedAt(t, i);
      if Shaped(t.states[i]) {
        ShapedStep(t.states[i], t.events[i], t.states[i + 1]);
      }
    }
  }

  // The lost renewal can really happen.

  function Renewal(c: Cast): Actor {
    Actor(0, c.alice, Renew(1, c.activation, c.token, 1), Lock(c.alice, 0))
  }

  function Dark(c: Cast): Store {
    Tables(c, AliceOnly(c, 1), 1).(leases := map[c.alice := Unrouted(LeaseOf(c), 0)])
  }

  lemma {:induction false} RenewalBegins(c: Cast)
    requires CastOk(c)
    ensures Reaches(Busy(Quiet(c, 0, AliceOnly(c, 1), 1), Renewal(c), Renewing(1, Some(c.route), true),
                         Tables(c, AliceOnly(c, 1), 1)), AliceCalls(c, 1))
  {
    var s, a, calls, store := Quiet(c, 0, AliceOnly(c, 1), 1), Renewal(c), AliceCalls(c, 1),
        Tables(c, AliceOnly(c, 1), 1);
    FirstOfTwelve(c);
    assert PeerLock(s, c.alice) == s;
    Begin(s, calls, a);
    assert calls + [] == calls;
    Proceed(s, calls, a, Expiring(0), store, Access, Checking(0), store);
    Proceed(s, calls, a, Checking(0), store, Access, Renewing(1, Some(c.route), true), store);
  }

  lemma {:induction false} SocketDrops(c: Cast)
    requires CastOk(c) && c.route.WebSocket?
    ensures Reaches(Busy(Quiet(c, 0, AliceOnly(c, 1), 1), Renewal(c), Renewing(1, Some(c.route), true), Dark(c)),
                    AliceCalls(c, 1))
  {
    var s := Busy(Quiet(c, 0, AliceOnly(c, 1), 1), Renewal(c), Renewing(1, Some(c.route), true),
                  Tables(c, AliceOnly(c, 1), 1));
    var sockets := [Disconnection(c.alice, c.route.generation, c.route.connectionId)];
    RenewalBegins(c);
    assert DisconnectSockets(s.store.leases, sockets[..0], 0) == s.store.leases;
    assert DisconnectSockets(s.store.leases, sockets, 0) == Dark(c).leases;
    ReachesNext(s, AliceCalls(c, 1), DisconnectNow(sockets), s.(store := Dark(c)));
    assert AliceCalls(c, 1) + [] == AliceCalls(c, 1);
  }

  lemma {:induction false} RenewalLost(c: Cast) returns (s: State)
    requires CastOk(c) && c.route.WebSocket?
    ensures Reaches(s, AliceCalls(c, 1)) && c.alice in s.store.leases && !ShapedLease(s.store.leases[c.alice])
  {
    SocketDrops(c);
    var store := Dark(c).(leases := map[c.alice := Unrouted(LeaseOf(c), 0).(route := Some(c.route))]);
    assert Dark(c).leases[c.alice := Unrouted(LeaseOf(c), 0).(route := Some(c.route))] == store.leases;
    Retire(Quiet(c, 0, AliceOnly(c, 1), 1), AliceCalls(c, 1), Renewal(c), Renewing(1, Some(c.route), true), Dark(c),
           CommitRoute(c.route), store);
    s := Quiet(c, 0, AliceOnly(c, 1), 1).(store := store);
  }

  /**
   An execution from the empty registry that ends with a routed record without a token:
   register, begin a renewal, let the web socket be disconnected, commit the renewal.
   */
  lemma {:induction false} LostRenewalHappens() returns (s: State, calls: seq<Call>, peer: PeerId)
    ensures Reaches(s, calls) && peer in s.store.leases && !ShapedLease(s.store.leases[peer])
  {
    var c := SomeCast(WebSocket(7, 9));
    s := RenewalLost(c);
    calls, peer := AliceCalls(c, 1), c.alice;
  }
}
