/** An execution in which records and reservation counter together exceed the cap for a moment. */
module ActivationOvershoot {
  import opened Basics
  import opened ActivationTables
  import opened ActivationProtocol
  import opened ActivationTraces
  import opened ActivationScenes

  /** `n` peers with short names hold a lease each, and nobody is doing anything. */
  ghost predicate Packed(s: State, n: nat) {
    && s.now == 0 && s.tasks == map[] && s.held == map[] && s.store.pending == 0
    && |s.store.leases| == n && s.store.v2Peers == s.store.leases.Keys && |s.locks| <= n
    && (forall p :: p in s.store.leases ==>
        |p.name| <= n && s.store.leases[p].route.Some? && s.store.leases[p].updatedAt == 0)
    && (forall p :: p in s.locks ==> |p.name| <= n)
  }

  /** The next peer, named by one more letter. */
  ghost function Next(s: State, n: nat): Actor {
    var name := seq(n + 1, i => 'a');
    Actor(0, PeerId(name), Register(seq(UUID_BYTES, i => 1), [2], 1, seq(ACTIVATION_ID_BYTES, i => 3), false),
          Lock(PeerId(name), s.serial))
  }

  lemma {:induction false} NextReady(s: State, n: nat)
    requires Packed(s, n) && n < MAX_LEASES
    ensures var a := Next(s, n);
      && ValidRequest(a.peer, a.request) && LockReady(s, a) && Settled(s.store.leases, 0)
      && FirstTime(Counted(s.store), a, 0) && Limited(Counted(s.store), a, 0) == Counted(s.store)
      && PeerLock(s, a.peer) == NewLock(s, a.peer) && a.peer !in s.store.leases && |a.peer.name| == n + 1
  {
    assert |s.store.leases.Keys| == |s.store.leases|;
  }

  lemma {:induction false} NextSettles(s: State, n: nat, token: Bytes, route: Route)
    requires Packed(s, n) && n < MAX_LEASES && Reaches(s, []) && |token| == ROUTE_LEASE_BYTES
    ensures var a, s1 := Next(s, n), PeerLock(s, Next(s, n).peer);
      && Reaches(Busy(s1, a, Settling, AboutToSettle(Counted(s.store), a, token, route, 0)), [])
      && Reaches(s1.(store := Finished(Counted(s.store), a, token, route, 0)), [])
  {
    var a := Next(s, n);
    NextReady(s, n);
    LetThrough(s, [], a);
    assert [] + CallsFor(a, 0, s.store.calls + 1) == [];
    Registered(PeerLock(s, a.peer), [], a, Counted(s.store), token, route);
  }

  lemma {:induction false} NextPacked(s: State, n: nat, token: Bytes, route: Route)
    requires Packed(s, n) && n < MAX_LEASES
    ensures var a, s1 := Next(s, n), PeerLock(s, Next(s, n).peer);
      Packed(s1.(store := Finished(Counted(s.store), a, token, route, 0)), n + 1)
  {
    NextReady(s, n);
  }

  lemma {:induction false} FillNext(before: State, n: nat, token: Bytes, route: Route) returns (s: State)
    requires n < MAX_LEASES && |token| == ROUTE_LEASE_BYTES && Reaches(before, []) && Packed(before, n)
    ensures Reaches(s, []) && Packed(s, n + 1)
  {
    NextSettles(before, n, token, route);
    NextPacked(before, n, token, route);
    var a := Next(before, n);
    s := PeerLock(before, a.peer).(store := Finished(Counted(before.store), a, token, route, 0));
  }

  lemma {:induction false} Fill(n: nat, token: Bytes, route: Route) returns (s: State)
    requires n <= MAX_LEASES && |token| == ROUTE_LEASE_BYTES
    ensures Reaches(s, []) && Packed(s, n)
  {
    if n == 0 {
      s := INITIAL;
      ReachesInitial();
    } else {
      s := Fill(n - 1, token, route);
      s := FillNext(s, n - 1, token, route);
    }
  }

  /** The hundred thousandth record is written while its own reservation still counts. */
  lemma {:induction false} CapacityOvershoots() returns (s: State)
    ensures Reaches(s, []) && |s.store.leases| == MAX_LEASES && s.store.pending == 1
  {
    var token: Bytes := seq(ROUTE_LEASE_BYTES, i => 4);
    var before := Fill(MAX_LEASES - 1, token, Native(5));
    var a := Next(before, MAX_LEASES - 1);
    NextReady(before, MAX_LEASES - 1);
    NextSettles(before, MAX_LEASES - 1, token, Native(5));
    s := Busy(PeerLock(before, a.peer), a, Settling, AboutToSettle(Counted(before.store), a, token, Native(5), 0));
  }
}
