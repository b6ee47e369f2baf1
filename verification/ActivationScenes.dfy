/** Whole requests as stretches of an execution, for showing that something can happen. */
module ActivationScenes {
  import opened Basics
  import opened ActivationTables
  import opened ActivationProtocol
  import opened ActivationTraces

  /** No route has expired and no record is due to be dropped. */
  ghost predicate Settled(leases: Leases, now: nat) {
    forall p :: p in leases ==> !TtlExpired(leases[p], now) && Retained(leases[p], now)
  }

  lemma {:induction false} SettledStays(leases: Leases, now: nat, peer: PeerId)
    requires Settled(leases, now)
    ensures Sweep(leases, now) == leases && ExpireRoute(leases, peer, now) == leases
  {
  }

  function Counted(store: Store): Store {
    store.(calls := store.calls + 1)
  }

  lemma {:induction false} NoCall(store: Store, a: Actor, stage: Stage)
    requires stage.Maintaining? || stage.Sweeping? || stage.Expiring?
    ensures CallOf(store, At(a, stage)).None?
  {
  }

  /** A registration gets through maintenance to its own check, having moved the counter on. */
  lemma {:induction false} Maintained(s: State, calls: seq<Call>, a: Actor)
    requires Reaches(Busy(s, a, Maintaining(s.now), s.store), calls) && Settled(s.store.leases, s.now)
    ensures Reaches(Busy(s, a, Expiring(s.now), Counted(s.store)), calls)
  {
    SettledStays(s.store.leases, s.now, a.peer);
    assert calls + [] == calls;
    NoCall(s.store, a, Maintaining(s.now));
    if MaintenanceDue(s.store.calls) {
      Proceed(s, calls, a, Maintaining(s.now), s.store, Access, Sweeping(s.now), Counted(s.store));
      NoCall(Counted(s.store), a, Sweeping(s.now));
      Proceed(s, calls, a, Sweeping(s.now), Counted(s.store), Access, Expiring(s.now), Counted(s.store));
    } else {
      Proceed(s, calls, a, Maintaining(s.now), s.store, Access, Expiring(s.now), Counted(s.store));
    }
  }

  lemma {:induction false} Opened(s: State, calls: seq<Call>, a: Actor)
    requires Reaches(Busy(s, a, Maintaining(s.now), s.store), calls) && Settled(s.store.leases, s.now)
    ensures Reaches(Busy(s, a, Checking(s.now), Counted(s.store)), calls)
  {
    Maintained(s, calls, a);
    SettledStays(s.store.leases, s.now, a.peer);
    assert calls + [] == calls;
    NoCall(Counted(s.store), a, Expiring(s.now));
    Proceed(s, calls, a, Expiring(s.now), Counted(s.store), Access, Checking(s.now), Counted(s.store));
  }

  /** A registration that is cancelled while it waits for the tables leaves only the counter moved on. */
  lemma {:induction false} Cancelled(s: State, calls: seq<Call>, a: Actor)
    requires Reaches(Busy(s, a, Maintaining(s.now), s.store), calls) && Settled(s.store.leases, s.now) && Absent(s, a)
    ensures Reaches(s.(store := Counted(s.store)), calls)
  {
    Maintained(s, calls, a);
    NoCall(Counted(s.store), a, Expiring(s.now));
    Retire(s, calls, a, Expiring(s.now), Counted(s.store), Drop, Counted(s.store));
  }

  // A first registration.

  /** The call it makes, if it makes one, when it is let through. */
  function CallsFor(a: Actor, now: nat, counter: nat): seq<Call>
    requires a.request.Register?
  {
    if a.request.fast then [Call(Identity(a.peer, a.request.uuid, a.request.publicKey), now, counter, true)] else []
  }

  /** What the limiter leaves of the tables. */
  function Limited(store: Store, a: Actor, now: nat): Store
    requires a.request.Register?
  {
    RunBurst(store, a.peer, a.request, now).0
  }

  ghost predicate FirstTime(store: Store, a: Actor, now: nat) {
    && a.request.Register? && a.request.activationId != [] && a.peer !in store.leases
    && RunBurst(store, a.peer, a.request, now).1.Pass? && |store.v2Peers| < MAX_V2_PEERS
    && |store.leases| + store.pending < MAX_LEASES
  }

  lemma {:induction false} Passed(s: State, calls: seq<Call>, a: Actor, store: Store)
    requires Reaches(Busy(s, a, Checking(s.now), store), calls) && FirstTime(store, a, s.now)
    ensures Reaches(Busy(s, a, Remembering(false, None), Limited(store, a, s.now)),
                    calls + CallsFor(a, s.now, store.calls))
  {
    assert calls + [] == calls;
    Proceed(s, calls, a, Checking(s.now), store, Access, Bursting(s.now, false, None), store);
    Proceed(s, calls, a, Bursting(s.now, false, None), store, Access, Remembering(false, None),
            Limited(store, a, s.now));
  }

  function Known(store: Store, a: Actor): Store {
    store.(v2Peers := store.v2Peers + {a.peer})
  }

  lemma {:induction false} Noted(s: State, calls: seq<Call>, a: Actor, store: Store)
    requires Reaches(Busy(s, a, Remembering(false, None), store), calls) && |store.v2Peers| < MAX_V2_PEERS
    ensures Reaches(Busy(s, a, Measuring(None), Known(store, a)), calls)
  {
    assert calls + [] == calls;
    Proceed(s, calls, a, Remembering(false, None), store, Access, Measuring(None), Known(store, a));
  }

  lemma {:induction false} Reserved(s: State, calls: seq<Call>, a: Actor, store: Store)
    requires Reaches(Busy(s, a, Measuring(None), store), calls) && |store.leases| + store.pending < MAX_LEASES
    ensures Reaches(Busy(s, a, Issuing(true, None), store.(pending := store.pending + 1)), calls)
  {
    assert calls + [] == calls;
    Proceed(s, calls, a, Measuring(None), store, Access, Reserving(|store.leases|, None), store);
    Proceed(s, calls, a, Reserving(|store.leases|, None), store, Access, Issuing(true, None),
            store.(pending := store.pending + 1));
  }

  function NewClaim(a: Actor, token: Bytes, generation: nat): Claim
    requires a.request.Register?
  {
    var r := a.request;
    Claim(r.uuid, r.publicKey, r.epoch, r.activationId, token, generation, None, true, true, true)
  }

  function Leased(store: Store, a: Actor, token: Bytes, route: Route, now: nat): Store
    requires a.request.Register?
  {
    var claim := NewClaim(a, token, NextGeneration(store));
    Take(store, Some(a.peer)).(leases := store.leases[a.peer := Committed(claim, route, now)])
  }

  /** The claim commits; its reservation is still counted. */
  lemma {:induction false} Claimed(s: State, calls: seq<Call>, a: Actor, store: Store, token: Bytes, route: Route)
    requires Reaches(Busy(s, a, Issuing(true, None), store), calls) && a.request.Register?
    requires |token| == ROUTE_LEASE_BYTES
    ensures Reaches(Busy(s, a, Settling, Leased(store, a, token, route, s.now)), calls)
  {
    assert calls + [] == calls;
    var claim := NewClaim(a, token, NextGeneration(store));
    var taken := Take(store, Some(a.peer));
    Proceed(s, calls, a, Issuing(true, None), store, Token(token), Stage.Claimed(claim), taken);
    Proceed(s, calls, a, Stage.Claimed(claim), taken, CommitRoute(route), Settling,
            Leased(store, a, token, route, s.now));
  }

  /** The tables while a first registration is about to give its reservation back. */
  function AboutToSettle(store: Store, a: Actor, token: Bytes, route: Route, now: nat): Store
    requires a.request.Register?
  {
    Leased(Known(store, a).(pending := store.pending + 1), a, token, route, now)
  }

  /** The tables when it is over. */
  function Finished(store: Store, a: Actor, token: Bytes, route: Route, now: nat): Store
    requires a.request.Register?
  {
    AboutToSettle(store, a, token, route, now).(pending := store.pending)
  }

  lemma {:induction false} GivenBack(s: State, calls: seq<Call>, a: Actor, store: Store)
    requires Reaches(Busy(s, a, Settling, store), calls) && Absent(s, a) && store.pending > 0
    ensures Reaches(s.(store := store.(pending := store.pending - 1)), calls)
  {
    Retire(s, calls, a, Settling, store, Access, store.(pending := store.pending - 1));
  }

  lemma {:induction false} Admitted(s: State, calls: seq<Call>, a: Actor, store: Store, token: Bytes, route: Route)
    requires Reaches(Busy(s, a, Remembering(false, None), store), calls) && a.request.Register?
    requires |store.v2Peers| < MAX_V2_PEERS && |store.leases| + store.pending < MAX_LEASES
    requires |token| == ROUTE_LEASE_BYTES
    ensures Reaches(Busy(s, a, Settling,
                         Leased(Known(store, a).(pending := store.pending + 1), a, token, route, s.now)),
                    calls)
  {
    Noted(s, calls, a, store);
    Reserved(s, calls, a, Known(store, a));
    Claimed(s, calls, a, Known(store, a).(pending := store.pending + 1), token, route);
  }

  /** A registration gets past the limiter. */
  lemma {:induction false} LetThrough(s: State, calls: seq<Call>, a: Actor)
    requires Reaches(s, calls) && ValidRequest(a.peer, a.request) && LockReady(s, a) && Settled(s.store.leases, s.now)
    requires FirstTime(Counted(s.store), a, s.now)
    ensures Reaches(Busy(PeerLock(s, a.peer), a, Remembering(false, None), Limited(Counted(s.store), a, s.now)),
                    calls + CallsFor(a, s.now, s.store.calls + 1))
  {
    Begin(s, calls, a);
    Opened(PeerLock(s, a.peer), calls, a);
    Passed(PeerLock(s, a.peer), calls, a, Counted(s.store));
  }

  /** And then runs its course; it can be stopped just before it gives its reservation back. */
  lemma {:induction false} Registered(s: State, calls: seq<Call>, a: Actor, store: Store, token: Bytes, route: Route)
    requires Reaches(Busy(s, a, Remembering(false, None), store), calls) && a.request.Register? && Absent(s, a)
    requires |store.v2Peers| < MAX_V2_PEERS && |store.leases| + store.pending < MAX_LEASES
    requires |token| == ROUTE_LEASE_BYTES
    ensures Reaches(Busy(s, a, Settling, AboutToSettle(store, a, token, route, s.now)), calls)
    ensures Reaches(s.(store := Finished(store, a, token, route, s.now)), calls)
  {
    Admitted(s, calls, a, store, token, route);
    GivenBack(s, calls, a, AboutToSettle(store, a, token, route, s.now));
  }

  // A repeated registration of the same activation.

  ghost predicate Repeats(store: Store, a: Actor) {
    && a.request.Register? && a.request.activationId != [] && a.request.fast
    && Classify(store.leases, a.peer, a.request).Reuse?
  }

  function ReusedClaim(store: Store, a: Actor): Claim
    requires Repeats(store, a)
  {
    var r, lease := a.request, store.leases[a.peer];
    Claim(r.uuid, r.publicKey, r.epoch, r.activationId, lease.routeLease, lease.generation, lease.route, true, false,
          false)
  }

  /** It asks the limiter, and when let through holds a claim on the lease it has. */
  lemma {:induction false} Repeated(s: State, calls: seq<Call>, a: Actor, store: Store, now: nat)
    requires Reaches(Busy(s, a, Checking(now), store), calls) && Repeats(store, a)
    requires RunBurst(store, a.peer, a.request, now).1.Pass?
    ensures Reaches(Busy(s, a, Stage.Claimed(ReusedClaim(store, a)), Limited(store, a, now)),
                    calls + CallsFor(a, now, store.calls))
  {
    Proceed(s, calls, a, Checking(now), store, Access, Stage.Claimed(ReusedClaim(store, a)), Limited(store, a, now));
  }

  lemma {:induction false} RepeatDropped(s: State, calls: seq<Call>, a: Actor, store: Store, claim: Claim)
    requires Reaches(Busy(s, a, Stage.Claimed(claim), store), calls) && Absent(s, a) && !claim.reserved
    ensures Reaches(s.(store := store), calls)
  {
    Retire(s, calls, a, Stage.Claimed(claim), store, Drop, store);
  }
}
