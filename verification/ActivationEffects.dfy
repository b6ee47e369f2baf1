/** What each operation of the registry decides and writes, said of the fields. */
module ActivationEffects {
  import opened Basics
  import opened ActivationTables
  import opened ActivationProtocol
  import opened ActivationSafety
  import opened ActivationTheorems
  import opened ActivationTraces

  // Arrival.

  /** There is a lock for the peer, room for one, or some lock that no request refers to. */
  ghost predicate LockAvailable(s: State, peer: PeerId) {
    peer in s.locks || |s.locks| < 100_000 || exists p :: p in s.locks && Idle(s, s.locks[p])
  }

  ghost predicate Idle(s: State, lock: Lock) {
    forall t :: t in s.tasks ==> s.tasks[t].lock != lock
  }

  lemma {:induction false} LockFound(s: State, peer: PeerId)
    requires |s.locks| <= MAX_PEER_LOCKS
    ensures peer in PeerLock(s, peer).locks <==> LockAvailable(s, peer)
    ensures PeerLock(s, peer) == s.(locks := PeerLock(s, peer).locks, serial := PeerLock(s, peer).serial)
  {
    var kept := EvictIdle(s.locks, s.tasks);
    if p :| p in s.locks && Idle(s, s.locks[p]) {
      SubsetSize(kept.Keys, s.locks.Keys - {p});
    } else {
      assert forall p :: p in s.locks ==> !Idle(s, s.locks[p]);
      assert kept == s.locks;
    }
  }

  /** A request that arrives queues exactly when it is well-formed and a lock can be had; else it leaves no task. */
  lemma {:induction false} QueuedExactly(s: State, t: TaskId, peer: PeerId, r: Request)
    requires LocksAgree(s) && t !in s.tasks
    ensures var next := Step(s, Start(t, peer, r));
      && next.Some? && next.value.store == s.store && next.value.now == s.now && next.value.held == s.held
      && (if ValidRequest(peer, r) && LockAvailable(s, peer)
          then peer in next.value.locks && next.value.tasks
              == s.tasks[t := Task(peer, r, next.value.locks[peer], Waiting)]
          else next.value.tasks == s.tasks)
  {
    LockFound(s, peer);
  }

  /** What a well-formed request is. */
  lemma {:induction false} WellFormed(peer: PeerId, uuid: Bytes, key: Bytes, epoch: nat, id: Bytes, token: Bytes,
                                      generation: nat, tokens: seq<Bytes>, fast: bool)
    ensures ValidRequest(peer, Register(uuid, key, epoch, id, fast)) <==>
      && peer.name != "" && |uuid| > 0 && 0 < |key| <= 512
      && ((id == [] && epoch == 0) || (|id| == 16 && |uuid| == 16 && epoch > 0))
    ensures ValidRequest(peer, Renew(epoch, id, token, generation)) <==>
      && peer.name != ""
      && ((id == [] && token == [] && epoch == 0 && generation == 0)
          || (|id| == 16 && |token| == 32 && epoch > 0 && generation > 0))
    ensures ValidRequest(peer, Deactivate(uuid, epoch, id, token, generation)) <==>
      peer.name != "" && |uuid| == 16 && |id| == 16 && |token| == 32 && epoch > 0 && generation > 0
    ensures ValidRequest(peer, Verify(uuid, epoch, id, tokens)) <==>
      && peer.name != "" && |uuid| == 16 && |id| == 16 && epoch > 0 && 1 <= |tokens| <= 16
      && forall token :: token in tokens ==> |token| == 32
  {
  }

  // Registration.

  /** The record belongs to another device, or this registration is not newer than what it holds. */
  predicate Outdated(lease: Lease, r: Request)
    requires r.Register?
  {
    || lease.uuid != r.uuid || r.epoch < lease.epoch
    || (r.epoch == lease.epoch
        && (lease.activationId != r.activationId || lease.publicKey != r.publicKey || lease.retired))
  }

  /** The claim names the registration's own identity. */
  predicate ClaimsFor(c: Claim, r: Request)
    requires r.Register?
  {
    c.uuid == r.uuid && c.publicKey == r.publicKey && c.epoch == r.epoch && c.activationId == r.activationId
  }

  /**
   A registration without an activation is refused exactly to a peer that ever had one; otherwise it
   gets a claim that writes no record, with a generation of its own.
   */
  lemma {:induction false} PlainRegistration(store: Store, peer: PeerId, r: Request, now: nat)
    requires r.Register? && r.activationId == []
    ensures peer in store.v2Peers ==> CheckRegister(store, peer, r, now) == Finish(store)
    ensures peer !in store.v2Peers ==>
      var move := CheckRegister(store, peer, r, now);
      && move.Continue? && move.store == store.(issued := store.issued + [Some(peer)]) && move.stage.Claimed?
      && !move.stage.claim.tracked && !move.stage.claim.reserved && move.stage.claim.routeLease == []
      && move.stage.claim.generation == |store.issued| + 1
  {
  }

  /**
   One with an activation is refused exactly when a record is there that outdates it. On the same
   activation with a live route it gets that record's token and generation again; otherwise it goes on
   to ask for a lease of its own.
   */
  lemma {:induction false} ActivatedRegistration(store: Store, peer: PeerId, r: Request, now: nat)
    requires r.Register? && r.activationId != [] && !r.fast
    ensures var move := CheckRegister(store, peer, r, now);
      if peer in store.leases && Outdated(store.leases[peer], r) then move == Finish(store)
      else if peer in store.leases && store.leases[peer].epoch == r.epoch && store.leases[peer].route.Some? then
        && move.Continue? && move.store == store && move.stage.Claimed? && ClaimsFor(move.stage.claim, r)
        && move.stage.claim.routeLease == store.leases[peer].routeLease
        && move.stage.claim.generation == store.leases[peer].generation
        && move.stage.claim.previous == store.leases[peer].route
        && move.stage.claim.tracked && !move.stage.claim.isNew && !move.stage.claim.reserved
      else
        move == Continue(store, Bursting(now, peer in store.leases,
                                         if peer in store.leases then store.leases[peer].route else None))
  {
  }

  /** A fast registration passes only where the limiter lets it, and leaves the limiter's table behind. */
  lemma {:induction false} FastRegistration(store: Store, peer: PeerId, r: Request, now: nat)
    requires r.Register? && r.activationId != [] && r.fast
    ensures var slow, fast := CheckRegister(store, peer, r.(fast := false), now), CheckRegister(store, peer, r, now);
      var (bursts, verdict) := CheckBurst(store.bursts, store.calls, Identity(peer, r.uuid, r.publicKey), now);
      if slow.Continue? && slow.stage.Claimed? then
        fast == if verdict.Pass? then Continue(store.(bursts := bursts), slow.stage)
            else Finish(store.(bursts := bursts))
      else fast == slow
  {
  }

  /** The limiter's stage of a registration without a reusable lease. */
  lemma {:induction false} LimiterStage(store: Store, clock: nat, task: Task)
    requires task.request.Register? && task.stage.Bursting?
    ensures var r := task.request;
      var (bursts, verdict) :=
        CheckBurst(store.bursts, store.calls, Identity(task.peer, r.uuid, r.publicKey), task.stage.now);
      AccessMove(store, clock, task) ==
      if !r.fast then Continue(store, Remembering(task.stage.existing, task.stage.previous))
      else if verdict.Pass?
      then Continue(store.(bursts := bursts), Remembering(task.stage.existing, task.stage.previous))
      else Finish(store.(bursts := bursts))
  {
  }

  /**
   A peer is refused exactly when it is unknown and the set is full; only a peer without a record
   needs a reservation.
   */
  lemma {:induction false} RememberStage(store: Store, clock: nat, task: Task)
    requires task.stage.Remembering?
    ensures var move := AccessMove(store, clock, task);
      if task.peer !in store.v2Peers && |store.v2Peers| >= MAX_V2_PEERS then move == Finish(store)
      else
        && move.Continue? && move.store == store.(v2Peers := store.v2Peers + {task.peer})
        && move.stage == (if task.stage.existing then Issuing(false, task.stage.previous)
                          else Measuring(task.stage.previous))
  {
  }

  /**
   The reservation is counted at once, and granted exactly when the size read before leaves room
   beside the others.
   */
  lemma {:induction false} ReserveStages(store: Store, clock: nat, task: Task)
    ensures task.stage.Measuring? ==>
      AccessMove(store, clock, task) == Continue(store, Reserving(|store.leases|, task.stage.previous))
    ensures task.stage.Reserving? ==>
      var move := AccessMove(store, clock, task);
      && move.Continue? && move.store == store.(pending := store.pending + 1)
      && (task.stage.active + store.pending < MAX_LEASES ==> move.stage == Issuing(true, task.stage.previous))
      && (task.stage.active + store.pending >= MAX_LEASES ==> move.stage == Unreserving)
  {
  }

  /**
   A new lease carries the registration's identity, the random token, and the next generation,
   recorded as the peer's.
   */
  lemma {:induction false} IssueStage(store: Store, clock: nat, task: Task, token: Bytes)
    requires task.stage.Issuing? && task.request.Register? && |token| == ROUTE_LEASE_BYTES
    ensures var move := Work(store, clock, task, Token(token));
      && move.Continue? && move.store == store.(issued := store.issued + [Some(task.peer)]) && move.stage.Claimed?
      && ClaimsFor(move.stage.claim, task.request) && move.stage.claim.routeLease == token
      && move.stage.claim.generation == |store.issued| + 1 && move.stage.claim.previous == task.stage.previous
      && move.stage.claim.tracked && move.stage.claim.isNew && move.stage.claim.reserved == task.stage.reserved
  {
  }

  /**
   Committing a claim writes the peer's record out of the claim and the route, live from now; no
   other record changes.
   */
  lemma {:induction false} ClaimCommitted(store: Store, clock: nat, task: Task, route: Route)
    requires task.stage.Claimed?
    ensures var move, c := Work(store, clock, task, CommitRoute(route)), task.stage.claim;
      var after := StoreOf(store, move);
      && after == store.(leases := after.leases)
      && (!c.tracked ==> after == store)
      && (c.tracked ==>
            after.leases == store.leases[task.peer := Lease(c.uuid, c.publicKey, c.epoch, c.activationId, c.routeLease,
                                                            c.generation, Some(route), false, clock)])
      && (move.Finish? <==> !c.reserved) && (c.reserved ==> move.Continue? && move.stage == Settling)
  {
  }

  /** Dropping a claim writes nothing, and a reservation is still given back. */
  lemma {:induction false} ClaimDropped(store: Store, clock: nat, task: Task)
    requires task.stage.Claimed? || task.stage.Renewing? || task.stage.Deactivating?
    ensures Work(store, clock, task, Drop) ==
      if task.stage.Claimed? && task.stage.claim.reserved then Continue(store, Settling) else Finish(store)
  {
  }

  // Renewal.

  /** The record is live and carries exactly this lease. */
  predicate Carries(lease: Lease, epoch: nat, id: Bytes, token: Bytes, generation: nat) {
    && !lease.retired && lease.route.Some? && lease.epoch == epoch && lease.activationId == id
    && lease.routeLease == token && lease.generation == generation
  }

  /** A renewal is accepted exactly for the lease the live record carries, or, without one, untracked. */
  lemma {:induction false} RenewalDecided(store: Store, clock: nat, task: Task)
    requires task.stage.Checking? && task.request.Renew?
    ensures var r, move := task.request, AccessMove(store, clock, task);
      var live := task.peer in store.leases && !store.leases[task.peer].retired && store.leases[task.peer].route.Some?;
      if r.activationId == [] && !live then move == Continue(store, Renewing(0, None, false))
      else if live && Carries(store.leases[task.peer], r.epoch, r.activationId, r.routeLease, r.generation)
      then move == Continue(store, Renewing(r.generation, store.leases[task.peer].route, true))
      else move == Finish(store)
  {
  }

  /** Committing it gives the record the new route and a fresh start in time, if it still is that unretired lease. */
  lemma {:induction false} RenewalCommitted(store: Store, clock: nat, task: Task, route: Route)
    requires task.stage.Renewing?
    ensures var p := task.peer;
      var same := task.stage.tracked && p in store.leases && store.leases[p].generation == task.stage.generation
                  && !store.leases[p].retired;
      && (!same ==> Work(store, clock, task, CommitRoute(route)) == Finish(store))
      && (same ==>
            var l := store.leases[p];
            Work(store, clock, task, CommitRoute(route)) ==
            Finish(store.(leases := store.leases[p := Lease(l.uuid, l.publicKey, l.epoch, l.activationId, l.routeLease,
                                                            l.generation, Some(route), false, clock)])))
  {
  }

  // Deactivation.

  lemma {:induction false} DeactivationDecided(store: Store, clock: nat, task: Task)
    requires task.stage.Checking? && task.request.Deactivate?
    ensures var r, p, move := task.request, task.peer, AccessMove(store, clock, task);
      if p in store.leases && store.leases[p].uuid == r.uuid
         && Carries(store.leases[p], r.epoch, r.activationId, r.routeLease, r.generation)
      then move == Continue(store, Deactivating(r.epoch, r.generation, store.leases[p].route.value))
      else move == Finish(store)
  {
  }

  /** The record still is the lease that is being deactivated. */
  predicate StillThere(leases: Leases, task: Task) {
    && task.stage.Deactivating? && task.peer in leases && leases[task.peer].epoch == task.stage.epoch
    && leases[task.peer].generation == task.stage.generation && leases[task.peer].route == Some(task.stage.route)
    && !leases[task.peer].retired
  }

  /** Committing retires it: no route, no token, everything else as it was; where it is gone, nothing happens. */
  lemma {:induction false} DeactivationRetires(store: Store, clock: nat, task: Task, removed: bool)
    requires task.stage.Deactivating?
    ensures var p, move := task.peer, Work(store, clock, task, RouteRemoved(removed));
      && (!(removed && StillThere(store.leases, task)) ==> move == Finish(store))
      && (removed && StillThere(store.leases, task) ==>
            var l := store.leases[p];
            move == Finish(store.(leases := store.leases[p := Lease(l.uuid, l.publicKey, l.epoch, l.activationId, [],
                                                                   l.generation, None, true, clock)])))
  {
  }

  /** Registering an activation that a retained record has retired or left behind is refused. */
  lemma {:induction false} RetiredRefuses(store: Store, peer: PeerId, r: Request, now: nat)
    requires r.Register? && r.activationId != [] && peer in store.leases
    requires r.epoch < store.leases[peer].epoch || (r.epoch == store.leases[peer].epoch && store.leases[peer].retired)
    ensures CheckRegister(store, peer, r, now) == Finish(store)
  {
  }

  lemma {:induction false} CommitRetires(t: Trace, i: nat, id: TaskId)
    requires IsTrace(t) && i < |t.events| && t.events[i] == Perform(id, RouteRemoved(true))
    requires id in t.states[i].tasks && StillThere(t.states[i].store.leases, t.states[i].tasks[id])
    ensures var p := t.states[i].tasks[id].peer; var after := t.states[i + 1].store.leases;
      && p in after && after[p].retired && after[p].route == None && after[p].routeLease == []
      && after[p].epoch == t.states[i].tasks[id].stage.epoch
      && after[p].generation == t.states[i].tasks[id].stage.generation && after[p].updatedAt == t.states[i].now
  {
    assert SteppedAt(t, i);
    DeactivationRetires(t.states[i].store, t.states[i].now, t.states[i].tasks[id], true);
  }

  /**
   In every execution: once a deactivation has committed, then as long as the record is retained, no
   registration of that or an earlier epoch gets anywhere and no verification of it succeeds.
   */
  lemma {:induction false} DeactivatedStaysOut(t: Trace, i: nat, j: nat, id: TaskId, r: Request, now: nat)
    requires IsTrace(t) && i < j < |t.states| && t.events[i] == Perform(id, RouteRemoved(true))
    requires id in t.states[i].tasks && StillThere(t.states[i].store.leases, t.states[i].tasks[id])
    requires RetainedThrough(t.states, i + 1, j, t.states[i].tasks[id].peer)
    ensures var p, epoch := t.states[i].tasks[id].peer, t.states[i].tasks[id].stage.epoch;
      && (r.Register? && r.activationId != [] && r.epoch <= epoch ==>
            CheckRegister(t.states[j].store, p, r, now) == Finish(t.states[j].store))
      && (r.Verify? && r.epoch <= epoch ==> !Verified(t.states[j].store.leases, p, r))
  {
    var p := t.states[i].tasks[id].peer;
    CommitRetires(t, i, id);
    TraceIsRun(t);
    RecordEvolves(t.states, i + 1, j, p);
    if r.Register? && r.activationId != [] && r.epoch <= t.states[i].tasks[id].stage.epoch {
      RetiredRefuses(t.states[j].store, p, r, now);
    }
  }

  /** And in every later state, retained or not, nothing is accepted that names the deactivated generation. */
  lemma {:induction false} DeactivatedStaysDead(t: Trace, i: nat, j: nat, id: TaskId, r: Request)
    requires IsTrace(t) && i < j < |t.states| && t.events[i] == Perform(id, RouteRemoved(true))
    requires id in t.states[i].tasks && StillThere(t.states[i].store.leases, t.states[i].tasks[id])
    ensures var p, g := t.states[i].tasks[id].peer, t.states[i].tasks[id].stage.generation;
      && (r.Renew? && r.generation == g ==> !RenewalAccepted(t.states[j].store.leases, p, r))
      && (r.Deactivate? && r.generation == g ==> !DeactivationAccepted(t.states[j].store.leases, p, r))
  {
    CommitRetires(t, i, id);
    TraceIsRun(t);
    DeadLeaseStaysDead(t.states, i + 1, j, t.states[i].tasks[id].peer, t.states[i].tasks[id].stage.generation);
  }

  // Verification.

  /**
   A verification succeeds exactly for the device and activation of the live record, with its token
   among those named.
   */
  lemma {:induction false} VerifiedExactly(
    leases: Leases, p: PeerId, uuid: Bytes, epoch: nat, id: Bytes, tokens: seq<Bytes>)
    ensures Verified(leases, p, Verify(uuid, epoch, id, tokens)) <==>
      && p in leases && leases[p].uuid == uuid && leases[p].routeLease in tokens
      && Carries(leases[p], epoch, id, leases[p].routeLease, leases[p].generation)
  {
  }

  // Routes in time.

  /** A touch gives a live record that holds this very route a fresh start in time; otherwise nothing happens. */
  lemma {:induction false} TouchRefreshes(store: Store, clock: nat, task: Task)
    requires task.stage.Checking? && task.request.Touch?
    ensures var p := task.peer;
      var holds := p in store.leases && !store.leases[p].retired && store.leases[p].route == Some(task.request.route);
      && (!holds ==> AccessMove(store, clock, task) == Finish(store))
      && (holds ==>
            var l := store.leases[p];
            AccessMove(store, clock, task) ==
            Finish(store.(leases := store.leases[p := Lease(l.uuid, l.publicKey, l.epoch, l.activationId, l.routeLease,
                                                            l.generation, l.route, l.retired, clock)])))
  {
  }

  /** The record without its route and token, from this moment on. */
  function Dark(l: Lease, now: nat): Lease {
    Lease(l.uuid, l.publicKey, l.epoch, l.activationId, [], l.generation, None, l.retired, now)
  }

  /** A disconnection takes route and token from a live record that holds this very route, and else does nothing. */
  lemma {:induction false} DisconnectDarkens(store: Store, clock: nat, task: Task)
    requires task.stage.Checking? && task.request.Disconnect?
    ensures var p := task.peer;
      var holds := p in store.leases && !store.leases[p].retired && store.leases[p].route == Some(task.request.route);
      && (!holds ==> AccessMove(store, clock, task) == Finish(store))
      && (holds ==>
            AccessMove(store, clock, task) == Finish(store.(leases := store.leases[p := Dark(store.leases[p], clock)])))
  {
  }

  /**
   A request other than touch and disconnection first takes its peer's route away exactly when it
   is 45 seconds old.
   */
  lemma {:induction false} OwnRouteExpires(store: Store, clock: nat, task: Task)
    requires task.stage.Expiring?
    ensures var p, now := task.peer, task.stage.now;
      var stale := p in store.leases && store.leases[p].route.Some? && store.leases[p].updatedAt + 45_000 <= now;
      AccessMove(store, clock, task) ==
      Continue(if stale then store.(leases := store.leases[p := Dark(store.leases[p], now)]) else store, Checking(now))
  {
  }

  /**
   What a sweep makes of one record: gone after 15 minutes without a route, dark after 45 seconds
   without a refresh.
   */
  lemma {:induction false} SweptRecord(leases: Leases, now: nat, p: PeerId)
    ensures p !in leases ==> p !in Sweep(leases, now)
    ensures p in leases ==>
      var l := leases[p]; var swept := Sweep(leases, now);
      if l.route.Some? && l.updatedAt + 45_000 <= now then p in swept && swept[p] == Dark(l, now)
      else if l.route.None? && l.updatedAt + 900_000 <= now then p !in swept
      else p in swept && swept[p] == l
  {
  }

  /**
   A registration counts, sweeps on every 256th count, and then looks at its own route; the others
   look at it first.
   */
  lemma {:induction false} FirstAccess(store: Store, clock: nat, task: Task, now: nat)
    ensures FirstStage(task.request, now) ==
      if task.request.Register? then Maintaining(now)
      else if task.request.Touch? || task.request.Disconnect? then Checking(now) else Expiring(now)
    ensures task.stage.Maintaining? ==>
      AccessMove(store, clock, task) ==
      Continue(store.(calls := store.calls + 1),
               if store.calls % 256 == 0 then Sweeping(task.stage.now) else Expiring(task.stage.now))
    ensures task.stage.Sweeping? ==>
      AccessMove(store, clock, task)
          == Continue(store.(leases := Sweep(store.leases, task.stage.now)), Expiring(task.stage.now))
  {
  }
}
