/** An execution in which a thirteenth fast re-registration slips through within one window. */
module ActivationSlip {
  import opened Basics
  import opened ActivationTables
  import opened ActivationProtocol
  import opened ActivationTraces
  import opened ActivationScenes
  import opened ActivationBurst

  /** Two peers, and what they register with. */
  datatype Cast = Cast(alice: PeerId, bob: PeerId, uuid: Bytes, key: Bytes, activation: Bytes, token: Bytes,
                       route: Route)

  ghost predicate CastOk(c: Cast) {
    && c.alice != c.bob && c.alice.name != "" && c.bob.name != "" && |c.uuid| == UUID_BYTES
    && 0 < |c.key| <= PUBLIC_KEY_MAX_BYTES && |c.activation| == ACTIVATION_ID_BYTES && |c.token| == ROUTE_LEASE_BYTES
  }

  function Asking(c: Cast): Request {
    Register(c.uuid, c.key, 1, c.activation, true)
  }

  function Alice(c: Cast): Actor {
    Actor(0, c.alice, Asking(c), Lock(c.alice, 0))
  }

  function Bob(c: Cast): Actor {
    Actor(1, c.bob, Asking(c), Lock(c.bob, 1))
  }

  function IdOf(c: Cast, peer: PeerId): Identity {
    Identity(peer, c.uuid, c.key)
  }

  function LeaseOf(c: Cast): Lease {
    Lease(c.uuid, c.key, 1, c.activation, c.token, 1, Some(c.route), false, 0)
  }

  function Tables(c: Cast, bursts: Bursts, calls: nat): Store {
    Store([Some(c.alice)], map[c.alice := LeaseOf(c)], {c.alice}, bursts, 0, calls)
  }

  /** Alice holds her lease and nobody is doing anything. */
  function Quiet(c: Cast, now: nat, bursts: Bursts, calls: nat): State {
    State(now, 1, map[c.alice := Lock(c.alice, 0)], map[], map[], Tables(c, bursts, calls))
  }

  function Zeros(n: nat): (s: seq<nat>)
    ensures |s| == n && forall i :: 0 <= i < n ==> s[i] == 0
  {
    if n == 0 then [] else Zeros(n - 1) + [0]
  }

  function AliceOnly(c: Cast, n: nat): Bursts {
    if n == 0 then map[] else map[IdOf(c, c.alice) := Zeros(n)]
  }

  /** Alice's calls so far, all at time zero. */
  function AliceCalls(c: Cast, n: nat): seq<Call> {
    if n == 0 then [] else AliceCalls(c, n - 1) + [Call(IdOf(c, c.alice), 0, n, true)]
  }

  // What the limiter answers.

  lemma {:induction false} AliceAgain(c: Cast, n: nat)
    requires n < BURST_LIMIT
    ensures CheckBurst(AliceOnly(c, n), n + 1, IdOf(c, c.alice), 0) == (AliceOnly(c, n + 1), Pass)
  {
    assert !PruneDue(AliceOnly(c, n), n + 1, IdOf(c, c.alice));
    assert Pruned(Zeros(n), 0) == Zeros(n);
    assert AliceOnly(c, n)[IdOf(c, c.alice) := Zeros(n) + [0]] == AliceOnly(c, n + 1);
  }

  lemma {:induction false} AllPruned(n: nat)
    ensures Pruned(Zeros(n), BURST_WINDOW) == []
  {
    if n > 0 {
      assert Zeros(n)[1..] == Zeros(n - 1);
      AllPruned(n - 1);
    }
  }

  function BobOnly(c: Cast): Bursts {
    map[IdOf(c, c.bob) := [BURST_WINDOW]]
  }

  /** Bob's call, when Alice's entries leave the window and the counter is due, clears the table. */
  lemma {:induction false} BobClears(c: Cast)
    requires CastOk(c)
    ensures CheckBurst(AliceOnly(c, BURST_LIMIT), 256, IdOf(c, c.bob), BURST_WINDOW) == (BobOnly(c), Pass)
  {
    AllPruned(BURST_LIMIT);
    assert PruneAll(AliceOnly(c, BURST_LIMIT), BURST_WINDOW) == map[];
    assert Pruned([], BURST_WINDOW) + [BURST_WINDOW] == [BURST_WINDOW];
  }

  /** Alice's clock is a millisecond behind; nothing is left of her twelve. */
  lemma {:induction false} AliceSlips(c: Cast)
    requires CastOk(c)
    ensures CheckBurst(BobOnly(c), 256, IdOf(c, c.alice), BURST_WINDOW - 1)
            == (BobOnly(c)[IdOf(c, c.alice) := [BURST_WINDOW - 1]], Pass)
  {
    assert Pruned([BURST_WINDOW], BURST_WINDOW - 1) == [BURST_WINDOW];
    assert PruneAll(BobOnly(c), BURST_WINDOW - 1) == BobOnly(c);
    assert Pruned([], BURST_WINDOW - 1) + [BURST_WINDOW - 1] == [BURST_WINDOW - 1];
  }

  // Twelve registrations of Alice's.

  /** The tables when Alice's first call has been let through. */
  function FirstStore(c: Cast): Store {
    Store([], map[], {}, AliceOnly(c, 1), 0, 1)
  }

  lemma {:induction false} FirstReady(c: Cast)
    requires CastOk(c)
    ensures LockReady(INITIAL, Alice(c)) && ValidRequest(c.alice, Asking(c)) && Settled(INITIAL.store.leases, 0)
    ensures FirstTime(Counted(INITIAL.store), Alice(c), 0)
    ensures Limited(Counted(INITIAL.store), Alice(c), 0) == FirstStore(c)
  {
    AliceAgain(c, 0);
  }

  lemma {:induction false} FirstLetThrough(c: Cast)
    requires CastOk(c)
    ensures Reaches(Busy(PeerLock(INITIAL, c.alice), Alice(c), Remembering(false, None), FirstStore(c)),
                    AliceCalls(c, 1))
  {
    ReachesInitial();
    FirstReady(c);
    LetThrough(INITIAL, [], Alice(c));
    assert AliceCalls(c, 1) == [] + CallsFor(Alice(c), 0, 1);
  }

  lemma {:induction false} FirstOfTwelve(c: Cast)
    requires CastOk(c)
    ensures Reaches(Quiet(c, 0, AliceOnly(c, 1), 1), AliceCalls(c, 1))
  {
    FirstLetThrough(c);
    var s1 := PeerLock(INITIAL, c.alice);
    Registered(s1, AliceCalls(c, 1), Alice(c), FirstStore(c), c.token, c.route);
    assert s1.(store := Finished(FirstStore(c), Alice(c), c.token, c.route, 0)) == Quiet(c, 0, AliceOnly(c, 1), 1);
  }

  lemma {:induction false} AliceReady(c: Cast, now: nat, bursts: Bursts, calls: nat)
    requires CastOk(c) && now < LEASE_TTL
    ensures var s := Quiet(c, now, bursts, calls);
      PeerLock(s, c.alice) == s && LockReady(s, Alice(c)) && ValidRequest(c.alice, Asking(c))
      && Settled(s.store.leases, now) && Counted(s.store) == Tables(c, bursts, calls + 1)
  {
  }

  lemma {:induction false} OneMore(c: Cast, k: nat)
    requires CastOk(c) && 0 < k < BURST_LIMIT && Reaches(Quiet(c, 0, AliceOnly(c, k), k), AliceCalls(c, k))
    ensures Reaches(Quiet(c, 0, AliceOnly(c, k + 1), k + 1), AliceCalls(c, k + 1))
  {
    var a, s, store := Alice(c), Quiet(c, 0, AliceOnly(c, k), k), Tables(c, AliceOnly(c, k), k + 1);
    AliceReady(c, 0, AliceOnly(c, k), k);
    Begin(s, AliceCalls(c, k), a);
    Opened(s, AliceCalls(c, k), a);
    AliceAgain(c, k);
    Repeated(s, AliceCalls(c, k), a, store, 0);
    assert Limited(store, a, 0) == Tables(c, AliceOnly(c, k + 1), k + 1);
    RepeatDropped(s, AliceCalls(c, k + 1), a, Limited(store, a, 0), ReusedClaim(store, a));
  }

  lemma {:induction false} Twelve(c: Cast, k: nat)
    requires CastOk(c) && 0 < k <= BURST_LIMIT
    ensures Reaches(Quiet(c, 0, AliceOnly(c, k), k), AliceCalls(c, k))
  {
    if k == 1 {
      FirstOfTwelve(c);
    } else {
      Twelve(c, k - 1);
      OneMore(c, k - 1);
    }
  }

  // Requests that are cancelled move the maintenance counter on.

  lemma {:induction false} Idling(c: Cast, bursts: Bursts, calls: seq<Call>, first: nat, last: nat)
    requires CastOk(c) && first <= last && Reaches(Quiet(c, 0, bursts, first), calls)
    ensures Reaches(Quiet(c, 0, bursts, last), calls)
    decreases last
  {
    if first < last {
      Idling(c, bursts, calls, first, last - 1);
      var s := Quiet(c, 0, bursts, last - 1);
      AliceReady(c, 0, bursts, last - 1);
      Begin(s, calls, Alice(c));
      Cancelled(s, calls, Alice(c));
      assert s.(store := Counted(s.store)) == Quiet(c, 0, bursts, last);
    }
  }

  // The race.

  /** Alice has read the clock one millisecond before her twelve leave the window, and has not yet asked. */
  lemma {:induction false} AliceHasRead(c: Cast)
    requires CastOk(c)
    ensures Reaches(Busy(Quiet(c, BURST_WINDOW - 1, AliceOnly(c, BURST_LIMIT), 254), Alice(c),
                         Checking(BURST_WINDOW - 1),
                         Tables(c, AliceOnly(c, BURST_LIMIT), 255)), AliceCalls(c, BURST_LIMIT))
  {
    var calls, bursts := AliceCalls(c, BURST_LIMIT), AliceOnly(c, BURST_LIMIT);
    Twelve(c, BURST_LIMIT);
    Idling(c, bursts, calls, BURST_LIMIT, 254);
    Wait(Quiet(c, 0, bursts, 254), calls, BURST_WINDOW - 1);
    AliceReady(c, BURST_WINDOW - 1, bursts, 254);
    Begin(Quiet(c, BURST_WINDOW - 1, bursts, 254), calls, Alice(c));
    Opened(Quiet(c, BURST_WINDOW - 1, bursts, 254), calls, Alice(c));
  }

  /** The registry a millisecond later, with Alice's request at its check. */
  function Stalled(c: Cast): State {
    State(BURST_WINDOW, 1, map[c.alice := Lock(c.alice, 0)], map[Lock(c.alice, 0) := 0],
          map[0 := At(Alice(c), Checking(BURST_WINDOW - 1))], Tables(c, AliceOnly(c, BURST_LIMIT), 255))
  }

  lemma {:induction false} AliceStalls(c: Cast)
    requires CastOk(c)
    ensures Reaches(Stalled(c), AliceCalls(c, BURST_LIMIT))
  {
    AliceHasRead(c);
    var s := Busy(Quiet(c, BURST_WINDOW - 1, AliceOnly(c, BURST_LIMIT), 254), Alice(c), Checking(BURST_WINDOW - 1),
                  Tables(c, AliceOnly(c, BURST_LIMIT), 255));
    Wait(s, AliceCalls(c, BURST_LIMIT), BURST_WINDOW);
    assert s.(now := BURST_WINDOW) == Stalled(c);
  }

  function BobCalls(c: Cast): seq<Call> {
    AliceCalls(c, BURST_LIMIT) + [Call(IdOf(c, c.bob), BURST_WINDOW, 256, true)]
  }

  lemma {:induction false} BobReady(c: Cast)
    requires CastOk(c)
    ensures LockReady(Stalled(c), Bob(c)) && ValidRequest(c.bob, Asking(c))
    ensures Settled(Stalled(c).store.leases, BURST_WINDOW)
    ensures Counted(Stalled(c).store) == Tables(c, AliceOnly(c, BURST_LIMIT), 256)
    ensures FirstTime(Tables(c, AliceOnly(c, BURST_LIMIT), 256), Bob(c), BURST_WINDOW)
    ensures Limited(Tables(c, AliceOnly(c, BURST_LIMIT), 256), Bob(c), BURST_WINDOW) == Tables(c, BobOnly(c), 256)
  {
    BobClears(c);
    assert |{c.alice}| == 1;
  }

  lemma {:induction false} BobOvertakes(c: Cast)
    requires CastOk(c)
    ensures Reaches(Busy(PeerLock(Stalled(c), c.bob), Bob(c), Remembering(false, None), Tables(c, BobOnly(c), 256)),
                    BobCalls(c))
  {
    AliceStalls(c);
    BobReady(c);
    LetThrough(Stalled(c), AliceCalls(c, BURST_LIMIT), Bob(c));
    assert CallsFor(Bob(c), BURST_WINDOW, 256) == [Call(IdOf(c, c.bob), BURST_WINDOW, 256, true)];
  }

  /** The registry around Alice's request when Bob's has passed. */
  function BobPassed(c: Cast): State {
    State(BURST_WINDOW, 2, map[c.alice := Lock(c.alice, 0), c.bob := Lock(c.bob, 1)], map[Lock(c.bob, 1) := 1],
          map[1 := At(Bob(c), Remembering(false, None))], Tables(c, BobOnly(c), 256))
  }

  lemma {:induction false} SameScene(c: Cast)
    requires CastOk(c)
    ensures Busy(PeerLock(Stalled(c), c.bob), Bob(c), Remembering(false, None), Tables(c, BobOnly(c), 256))
            == Busy(BobPassed(c), Alice(c), Checking(BURST_WINDOW - 1), Tables(c, BobOnly(c), 256))
  {
    var s := Busy(PeerLock(Stalled(c), c.bob), Bob(c), Remembering(false, None), Tables(c, BobOnly(c), 256));
    var s' := Busy(BobPassed(c), Alice(c), Checking(BURST_WINDOW - 1), Tables(c, BobOnly(c), 256));
    assert s.tasks == s'.tasks;
    assert s.held == s'.held;
    assert s.locks == s'.locks;
  }

  function AllCalls(c: Cast): seq<Call> {
    BobCalls(c) + [Call(IdOf(c, c.alice), BURST_WINDOW - 1, 256, true)]
  }

  lemma {:induction false} AliceMayAsk(c: Cast)
    requires CastOk(c)
    ensures var store := Tables(c, BobOnly(c), 256);
      Repeats(store, Alice(c)) && RunBurst(store, c.alice, Asking(c), BURST_WINDOW - 1).1.Pass?
  {
    AliceSlips(c);
  }

  lemma {:induction false} AliceAsksLate(c: Cast) returns (s: State)
    requires CastOk(c)
    ensures Reaches(s, AllCalls(c))
  {
    BobOvertakes(c);
    SameScene(c);
    AliceMayAsk(c);
    var a, store := Alice(c), Tables(c, BobOnly(c), 256);
    Repeated(BobPassed(c), BobCalls(c), a, store, BURST_WINDOW - 1);
    assert AllCalls(c) == BobCalls(c) + CallsFor(a, BURST_WINDOW - 1, 256);
    s := Busy(BobPassed(c), a, Stage.Claimed(ReusedClaim(store, a)), Limited(store, a, BURST_WINDOW - 1));
  }

  // What was accepted.

  lemma {:induction false} AcceptedPrefix(calls: seq<Call>, more: seq<Call>, n: nat, id: Identity)
    requires n <= |calls|
    ensures Accepted(calls + more, n, id) == Accepted(calls, n, id)
  {
    if n > 0 {
      AcceptedPrefix(calls, more, n - 1, id);
    }
  }

  lemma {:induction false} Append(calls: seq<Call>, last: Call, id: Identity)
    ensures Accepted(calls + [last], |calls| + 1, id) ==
            Accepted(calls, |calls|, id) + if last.id == id && last.passed then [last.now] else []
  {
    AcceptedPrefix(calls, [last], |calls|, id);
  }

  lemma {:induction false} AliceAccepted(c: Cast, n: nat)
    ensures |AliceCalls(c, n)| == n && Accepted(AliceCalls(c, n), n, IdOf(c, c.alice)) == Zeros(n)
  {
    if n > 0 {
      AliceAccepted(c, n - 1);
      Append(AliceCalls(c, n - 1), Call(IdOf(c, c.alice), 0, n, true), IdOf(c, c.alice));
    }
  }

  lemma {:induction false} AllAccepted(c: Cast, n: nat)
    requires CastOk(c) && n == BURST_LIMIT
    ensures Accepted(AllCalls(c), |AllCalls(c)|, IdOf(c, c.alice)) == Zeros(n) + [BURST_WINDOW - 1]
  {
    AliceAccepted(c, n);
    Append(AliceCalls(c, n), Call(IdOf(c, c.bob), BURST_WINDOW, 256, true), IdOf(c, c.alice));
    Append(BobCalls(c), Call(IdOf(c, c.alice), BURST_WINDOW - 1, 256, true), IdOf(c, c.alice));
  }

  lemma {:induction false} SlipsThrough(c: Cast) returns (s: State, calls: seq<Call>)
    requires CastOk(c)
    ensures Reaches(s, calls)
    ensures var all := Accepted(calls, |calls|, IdOf(c, c.alice));
      |all| == BURST_LIMIT + 1 && all[BURST_LIMIT] < all[0] + BURST_WINDOW
  {
    s := AliceAsksLate(c);
    calls := AllCalls(c);
    AllAccepted(c, BURST_LIMIT);
  }

  /** There are such peers and requests. */
  lemma {:induction false} SomeCast(route: Route) returns (c: Cast)
    ensures CastOk(c) && c.route == route
  {
    c := Cast(PeerId("a"), PeerId("b"), seq(UUID_BYTES, _ => 1), [2], seq(ACTIVATION_ID_BYTES, _ => 3),
              seq(ROUTE_LEASE_BYTES, _ => 4), route);
  }

  /**
   An execution from the empty registry, with valid requests only, in which thirteen calls of one
   identity are accepted within one window: Alice reads the clock at 29.999 s and is overtaken by
   Bob, who reads it at 30 s just when a full prune is due.
   */
  lemma {:induction false} LateCallSlipsThrough() returns (s: State, calls: seq<Call>, id: Identity)
    ensures Reaches(s, calls)
    ensures var all := Accepted(calls, |calls|, id);
      |all| == BURST_LIMIT + 1 && all[BURST_LIMIT] < all[0] + BURST_WINDOW
  {
    var c := SomeCast(Native(5));
    s, calls := SlipsThrough(c);
    id := IdOf(c, c.alice);
  }
}
