/** How long records and routes last, in every execution. */
module ActivationTimes {
  import opened Basics
  import opened ActivationTables
  import opened ActivationProtocol
  import opened ActivationSafety
  import opened ActivationTheorems
  import opened ActivationTraces
  import opened ActivationEffects

  // No clock value in the registry is ahead of the clock.

  /** The clock value a running task goes by. */
  function ReadAt(stage: Stage): nat {
    match stage
    case Maintaining(now) => now
    case Sweeping(now) => now
    case Expiring(now) => now
    case Checking(now) => now
    case Bursting(now, _, _) => now
    case _ => 0
  }

  ghost predicate Dated(leases: Leases, clock: nat) {
    forall p :: p in leases ==> leases[p].updatedAt <= clock
  }

  ghost predicate ClocksOk(s: State) {
    Dated(s.store.leases, s.now) && forall t :: t in s.tasks ==> ReadAt(s.tasks[t].stage) <= s.now
  }

  lemma {:induction false} SweepDated(leases: Leases, now: nat, clock: nat)
    requires Dated(leases, clock) && now <= clock
    ensures Dated(Sweep(leases, now), clock)
  {
  }

  lemma {:induction false} AccessDated(store: Store, clock: nat, task: Task)
    requires Dated(store.leases, clock) && ReadAt(task.stage) <= clock
    ensures Dated(StoreOf(store, AccessMove(store, clock, task)).leases, clock)
  {
    if task.stage.Sweeping? { SweepDated(store.leases, task.stage.now, clock); }
  }

  lemma {:induction false} AccessReads(store: Store, clock: nat, task: Task)
    requires ReadAt(task.stage) <= clock
    ensures var move := AccessMove(store, clock, task); move.Continue? ==> ReadAt(move.stage) <= clock
  {
  }

  lemma {:induction false} WorkDated(store: Store, clock: nat, task: Task, input: Input)
    requires Dated(store.leases, clock) && ReadAt(task.stage) <= clock
    ensures var move := Work(store, clock, task, input);
      Dated(StoreOf(store, move).leases, clock) && (move.Continue? ==> ReadAt(move.stage) <= clock)
  {
    if input.Access? {
      AccessDated(store, clock, task);
      AccessReads(store, clock, task);
    }
  }

  lemma {:induction false} DisconnectDated(leases: Leases, sockets: seq<Disconnection>, now: nat)
    requires Dated(leases, now)
    ensures Dated(DisconnectSockets(leases, sockets, now), now)
    decreases |sockets|
  {
    if sockets != [] {
      DisconnectDated(leases, sockets[..|sockets| - 1], now);
    }
  }

  /** Records stay as they are, and tasks too, except that one may arrive or be admitted. */
  ghost predicate Quiet(s: State, s': State) {
    && s'.store.leases == s.store.leases && s.now <= s'.now
    && forall t :: t in s'.tasks ==>
         || (t in s.tasks && s'.tasks[t] == s.tasks[t]) || s'.tasks[t].stage.Waiting?
         || s'.tasks[t].stage == FirstStage(s'.tasks[t].request, s.now)
  }

  lemma {:induction false} QuietStart(s: State, e: Event, s': State)
    requires LocksAgree(s) && e.Start? && Step(s, e) == Some(s')
    ensures Quiet(s, s')
  {
    QueuedExactly(s, e.id, e.peer, e.request);
  }

  lemma {:induction false} QuietEvents(s: State, e: Event, s': State)
    requires LocksAgree(s) && !e.Perform? && !e.DisconnectNow? && Step(s, e) == Some(s')
    ensures Quiet(s, s')
  {
    if e.Start? { QuietStart(s, e, s'); }
  }

  lemma {:induction false} QuietClocks(s: State, s': State)
    requires ClocksOk(s) && Quiet(s, s')
    ensures ClocksOk(s')
  {
  }

  lemma {:induction false} ClocksPerform(s: State, t: TaskId, input: Input, s': State)
    requires ClocksOk(s) && Step(s, Perform(t, input)) == Some(s')
    ensures ClocksOk(s') && s.now == s'.now
  {
    WorkDated(s.store, s.now, s.tasks[t], input);
  }

  lemma {:induction false} ClocksStep(s: State, e: Event, s': State)
    requires LocksAgree(s) && ClocksOk(s) && Step(s, e) == Some(s')
    ensures ClocksOk(s') && s.now <= s'.now
  {
    if e.Perform? {
      ClocksPerform(s, e.id, e.input, s');
    } else if e.DisconnectNow? {
      DisconnectDated(s.store.leases, e.sockets, s.now);
    } else {
      QuietEvents(s, e, s');
      QuietClocks(s, s');
    }
  }

  // What a task sees when it looks at its record.

  /** The record's route, if it has one, is not 45 seconds old. */
  ghost predicate Current(leases: Leases, p: PeerId, now: nat) {
    p in leases && leases[p].route.Some? ==> now < leases[p].updatedAt + 45_000
  }

  ghost predicate Looks(leases: Leases, task: Task) {
    task.stage.Checking? && !task.request.Touch? && !task.request.Disconnect? ==>
      Current(leases, task.peer, task.stage.now)
  }

  ghost predicate LooksOk(s: State) {
    forall t :: t in s.tasks ==> Looks(s.store.leases, s.tasks[t])
  }

  lemma {:induction false} WorkLooks(store: Store, clock: nat, task: Task, input: Input)
    ensures var move := Work(store, clock, task, input);
      move.Continue? ==> Looks(move.store.leases, task.(stage := move.stage))
  {
  }

  lemma {:induction false} ForeignLooks(store: Store, store': Store, exempt: Option<PeerId>, task: Task)
    requires Foreign(store, store', exempt) && Some(task.peer) != exempt && Looks(store.leases, task)
    ensures Looks(store'.leases, task)
  {
  }

  lemma {:induction false} LooksPerform(s: State, t: TaskId, input: Input, s': State)
    requires LocksAgree(s) && LooksOk(s) && Step(s, Perform(t, input)) == Some(s')
    ensures LooksOk(s')
  {
    WorkLooks(s.store, s.now, s.tasks[t], input);
    WorkForeign(s.store, s.now, s.tasks[t], input);
    forall u | u in s'.tasks ensures Looks(s'.store.leases, s'.tasks[u]) {
      if u != t && Running(s, u) && Running(s, t) {
        assert s.tasks[u].peer != s.tasks[t].peer;
        ForeignLooks(s.store, s'.store, Some(s.tasks[t].peer), s.tasks[u]);
      }
    }
  }

  lemma {:induction false} QuietLooks(s: State, s': State)
    requires LooksOk(s) && Quiet(s, s')
    ensures LooksOk(s')
  {
  }

  lemma {:induction false} LooksStep(s: State, e: Event, s': State)
    requires LocksAgree(s) && LooksOk(s) && Step(s, e) == Some(s')
    ensures LooksOk(s')
  {
    if e.Perform? {
      LooksPerform(s, e.id, e.input, s');
    } else if e.DisconnectNow? {
      DisconnectForeign(s.store, e.sockets, s.now);
      forall t | t in s.tasks ensures Looks(s'.store.leases, s'.tasks[t]) {
        ForeignLooks(s.store, s'.store, None, s.tasks[t]);
      }
    } else {
      QuietEvents(s, e, s');
      QuietLooks(s, s');
    }
  }

  // Both hold in every execution.

  ghost predicate TimesOk(s: State) {
    LocksAgree(s) && ClocksOk(s) && LooksOk(s)
  }

  lemma {:induction false} TimesStep(s: State, e: Event, s': State)
    requires TimesOk(s) && Leads(s, e, s')
    ensures TimesOk(s') && s.now <= s'.now
  {
    assert StepsTo(s, e, Some(s'));
    LocksStep(s, e, s');
    ClocksStep(s, e, s');
    LooksStep(s, e, s');
  }

  lemma {:induction false} LeadsAt(t: Trace, i: nat)
    requires IsTrace(t) && i < |t.events|
    ensures Leads(t.states[i], t.events[i], t.states[i + 1])
  {
    assert SteppedAt(t, i);
  }

  lemma {:induction false} ReachableTimes(t: Trace, i: nat)
    requires IsTrace(t) && i < |t.states|
    ensures TimesOk(t.states[i])
    ensures i > 0 ==> t.states[i - 1].now <= t.states[i].now
  {
    if i > 0 {
      ReachableTimes(t, i - 1);
      LeadsAt(t, i - 1);
      TimesStep(t.states[i - 1], t.events[i - 1], t.states[i]);
    }
  }

  /** In every execution: the route that a registration, renewal, deactivation or verification goes by is current. */
  lemma {:induction false} OnlyCurrentRoutesCount(t: Trace, i: nat, id: TaskId)
    requires IsTrace(t) && i < |t.states| && id in t.states[i].tasks
    requires t.states[i].tasks[id].stage.Checking?
    requires !t.states[i].tasks[id].request.Touch? && !t.states[i].tasks[id].request.Disconnect?
    ensures Current(t.states[i].store.leases, t.states[i].tasks[id].peer, t.states[i].tasks[id].stage.now)
  {
    ReachableTimes(t, i);
    assert Looks(t.states[i].store.leases, t.states[i].tasks[id]);
  }

  // Retention.

  /** The record is still there and its date did not go back. */
  ghost predicate Stays(leases: Leases, after: Leases, p: PeerId) {
    p in leases && p in after && leases[p].updatedAt <= after[p].updatedAt
  }

  lemma {:induction false} WorkStays(store: Store, clock: nat, task: Task, input: Input, p: PeerId)
    requires Dated(store.leases, clock) && ReadAt(task.stage) <= clock
    requires p in store.leases && clock < store.leases[p].updatedAt + 900_000
    ensures Stays(store.leases, StoreOf(store, Work(store, clock, task, input)).leases, p)
  {
  }

  lemma {:induction false} DisconnectStays(leases: Leases, sockets: seq<Disconnection>, now: nat, p: PeerId)
    requires Dated(leases, now) && p in leases
    ensures Stays(leases, DisconnectSockets(leases, sockets, now), p)
    decreases |sockets|
  {
    if sockets != [] {
      DisconnectStays(leases, sockets[..|sockets| - 1], now, p);
    }
  }

  lemma {:induction false} StepStays(s: State, e: Event, s': State, p: PeerId)
    requires TimesOk(s) && Leads(s, e, s')
    requires p in s.store.leases && s.now < s.store.leases[p].updatedAt + 900_000
    ensures Stays(s.store.leases, s'.store.leases, p)
  {
    assert StepsTo(s, e, Some(s'));
    if e.Perform? {
      WorkStays(s.store, s.now, s.tasks[e.id], e.input, p);
    } else if e.DisconnectNow? {
      DisconnectStays(s.store.leases, e.sockets, s.now, p);
    } else {
      QuietEvents(s, e, s');
    }
  }

  /** In every execution a record is kept for fifteen minutes after its date, whatever happens meanwhile. */
  lemma {:induction false} RecordKept(t: Trace, i: nat, j: nat, p: PeerId)
    requires IsTrace(t) && i <= j < |t.states| && p in t.states[i].store.leases
    requires t.states[j].now < t.states[i].store.leases[p].updatedAt + 900_000
    ensures RetainedThrough(t.states, i, j, p)
    ensures Stays(t.states[i].store.leases, t.states[j].store.leases, p)
    decreases j
  {
    if i < j {
      ReachableTimes(t, j - 1);
      ReachableTimes(t, j);
      LeadsAt(t, j - 1);
      RecordKept(t, i, j - 1, p);
      StepStays(t.states[j - 1], t.events[j - 1], t.states[j], p);
    }
  }

  /**
   So for fifteen minutes after a deactivation has committed, whatever happens meanwhile, the peer's
   registrations of that or an earlier epoch are refused and no verification of one succeeds.
   */
  lemma {:induction false} DeactivatedForRetention(t: Trace, i: nat, j: nat, id: TaskId, r: Request, now: nat)
    requires IsTrace(t) && i < j < |t.states| && t.events[i] == Perform(id, RouteRemoved(true))
    requires id in t.states[i].tasks && StillThere(t.states[i].store.leases, t.states[i].tasks[id])
    requires t.states[j].now < t.states[i].now + 900_000
    ensures var p, epoch := t.states[i].tasks[id].peer, t.states[i].tasks[id].stage.epoch;
      && (r.Register? && r.activationId != [] && r.epoch <= epoch ==>
            CheckRegister(t.states[j].store, p, r, now) == Finish(t.states[j].store))
      && (r.Verify? && r.epoch <= epoch ==> !Verified(t.states[j].store.leases, p, r))
  {
    CommitRetires(t, i, id);
    RecordKept(t, i + 1, j, t.states[i].tasks[id].peer);
    DeactivatedStaysOut(t, i, j, id, r, now);
  }

  // A live route.

  /** The step is the peer's own commit or its disconnection of this route, or closes this very socket. */
  ghost predicate Takes(s: State, e: Event, p: PeerId, route: Route) {
    || (e.Perform? && e.id in s.tasks && s.tasks[e.id].peer == p
        && (e.input.CommitRoute? || e.input.RouteRemoved? || s.tasks[e.id].request == Disconnect(route)))
    || (e.DisconnectNow? && route.WebSocket? && Disconnection(p, route.generation, route.connectionId) in e.sockets)
  }

  /** The same live lease, its date perhaps later. */
  ghost predicate Lives(leases: Leases, after: Leases, p: PeerId) {
    && Stays(leases, after, p) && leases[p].route.Some?
    && after[p] == leases[p].(updatedAt := after[p].updatedAt)
  }

  /** The record's route is current at the request's own clock too, and is not the one it disconnects. */
  lemma {:induction false} AccessLives(store: Store, clock: nat, task: Task, p: PeerId)
    requires Dated(store.leases, clock) && ReadAt(task.stage) <= clock
    requires p in store.leases && store.leases[p].route.Some? && clock < store.leases[p].updatedAt + 45_000
    requires task.peer == p ==> task.request != Disconnect(store.leases[p].route.value)
    ensures Lives(store.leases, StoreOf(store, AccessMove(store, clock, task)).leases, p)
  {
  }

  lemma {:induction false} WorkLives(s: State, t: TaskId, input: Input, p: PeerId)
    requires ClocksOk(s) && t in s.tasks && p in s.store.leases && s.store.leases[p].route.Some?
    requires !Takes(s, Perform(t, input), p, s.store.leases[p].route.value)
    requires s.now < s.store.leases[p].updatedAt + 45_000
    ensures Lives(s.store.leases, StoreOf(s.store, Work(s.store, s.now, s.tasks[t], input)).leases, p)
  {
    AccessLives(s.store, s.now, s.tasks[t], p);
  }

  lemma {:induction false} DisconnectLives(leases: Leases, sockets: seq<Disconnection>, now: nat, p: PeerId)
    requires p in leases && leases[p].route.Some?
    requires var route := leases[p].route.value;
      route.WebSocket? ==> Disconnection(p, route.generation, route.connectionId) !in sockets
    ensures Lives(leases, DisconnectSockets(leases, sockets, now), p)
    decreases |sockets|
  {
    if sockets != [] {
      var last := sockets[|sockets| - 1];
      assert last in sockets;
      DisconnectLives(leases, sockets[..|sockets| - 1], now, p);
    }
  }

  lemma {:induction false} StepLives(s: State, e: Event, s': State, p: PeerId)
    requires TimesOk(s) && Leads(s, e, s') && p in s.store.leases && s.store.leases[p].route.Some?
    requires !Takes(s, e, p, s.store.leases[p].route.value) && s.now < s.store.leases[p].updatedAt + 45_000
    ensures Lives(s.store.leases, s'.store.leases, p)
  {
    assert StepsTo(s, e, Some(s'));
    if e.Perform? {
      WorkLives(s, e.id, e.input, p);
    } else if e.DisconnectNow? {
      DisconnectLives(s.store.leases, e.sockets, s.now, p);
    } else {
      QuietEvents(s, e, s');
    }
  }

  ghost predicate Undisturbed(t: Trace, i: nat, j: nat, p: PeerId, route: Route)
    requires j <= |t.events| && j <= |t.states|
  {
    forall k :: i <= k < j ==> !Takes(t.states[k], t.events[k], p, route)
  }

  /**
   In every execution a live lease lives on for 45 seconds after its date, with the same route, token
   and generation, unless its own peer commits or disconnects something or its socket is closed;
   whatever other peers do, and whatever else its own peer asks.
   */
  lemma {:induction false} LeaseLivesOn(t: Trace, i: nat, j: nat, p: PeerId)
    requires IsTrace(t) && i <= j < |t.states| && p in t.states[i].store.leases
    requires t.states[i].store.leases[p].route.Some?
    requires Undisturbed(t, i, j, p, t.states[i].store.leases[p].route.value)
    requires t.states[j].now < t.states[i].store.leases[p].updatedAt + 45_000
    ensures Lives(t.states[i].store.leases, t.states[j].store.leases, p)
    decreases j
  {
    if i < j {
      ReachableTimes(t, j - 1);
      ReachableTimes(t, j);
      LeadsAt(t, j - 1);
      LeaseLivesOn(t, i, j - 1, p);
      StepLives(t.states[j - 1], t.events[j - 1], t.states[j], p);
    }
  }

  /** The peer's touch of the live route it holds. */
  ghost predicate Touches(s: State, e: Event, p: PeerId) {
    && e.Perform? && e.id in s.tasks && s.tasks[e.id].peer == p && s.tasks[e.id].stage.Checking?
    && e.input.Access? && s.tasks[e.id].request.Touch? && p in s.store.leases && !s.store.leases[p].retired
    && s.store.leases[p].route == Some(s.tasks[e.id].request.route)
  }

  /** A touched lease answers its peer's verifications and renewals for 45 seconds more. */
  lemma {:induction false} TouchedLivesOn(t: Trace, i: nat, j: nat, p: PeerId, r: Request, tokens: seq<Bytes>)
    requires IsTrace(t) && i < j < |t.states| && Touches(t.states[i], t.events[i], p)
    requires Undisturbed(t, i + 1, j, p, t.states[i].store.leases[p].route.value)
    requires t.states[j].now < t.states[i].now + 45_000
    ensures var l := t.states[i].store.leases[p];
      && (r == Verify(l.uuid, l.epoch, l.activationId, tokens) && l.routeLease in tokens ==>
            Verified(t.states[j].store.leases, p, r))
      && (r == Renew(l.epoch, l.activationId, l.routeLease, l.generation) ==>
            RenewalAccepted(t.states[j].store.leases, p, r))
  {
    assert SteppedAt(t, i);
    TouchRefreshes(t.states[i].store, t.states[i].now, t.states[i].tasks[t.events[i].id]);
    LeaseLivesOn(t, i + 1, j, p);
  }

  /** And so does one that a renewal has just given a new route. */
  lemma {:induction false} RenewedLivesOn(t: Trace, i: nat, j: nat, id: TaskId, route: Route, r: Request,
                                           tokens: seq<Bytes>)
    requires IsTrace(t) && i < j < |t.states| && t.events[i] == Perform(id, CommitRoute(route))
    requires id in t.states[i].tasks && t.states[i].tasks[id].stage.Renewing? && t.states[i].tasks[id].stage.tracked
    requires var p, leases := t.states[i].tasks[id].peer, t.states[i].store.leases;
      p in leases && leases[p].generation == t.states[i].tasks[id].stage.generation && !leases[p].retired
    requires Undisturbed(t, i + 1, j, t.states[i].tasks[id].peer, route)
    requires t.states[j].now < t.states[i].now + 45_000
    ensures var p := t.states[i].tasks[id].peer; var l := t.states[i].store.leases[p];
      && p in t.states[j].store.leases && t.states[j].store.leases[p].route == Some(route)
      && (r == Verify(l.uuid, l.epoch, l.activationId, tokens) && l.routeLease in tokens ==>
            Verified(t.states[j].store.leases, p, r))
      && (r == Renew(l.epoch, l.activationId, l.routeLease, l.generation) ==>
            RenewalAccepted(t.states[j].store.leases, p, r))
  {
    assert SteppedAt(t, i);
    RenewalCommitted(t.states[i].store, t.states[i].now, t.states[i].tasks[id], route);
    LeaseLivesOn(t, i + 1, j, t.states[i].tasks[id].peer);
  }

  /** A committed registration, likewise. */
  lemma {:induction false} RegisteredLivesOn(t: Trace, i: nat, j: nat, id: TaskId, route: Route, r: Request,
                                           tokens: seq<Bytes>)
    requires IsTrace(t) && i < j < |t.states| && t.events[i] == Perform(id, CommitRoute(route))
    requires id in t.states[i].tasks && t.states[i].tasks[id].stage.Claimed?
    requires t.states[i].tasks[id].stage.claim.tracked
    requires Undisturbed(t, i + 1, j, t.states[i].tasks[id].peer, route)
    requires t.states[j].now < t.states[i].now + 45_000
    ensures var p, c := t.states[i].tasks[id].peer, t.states[i].tasks[id].stage.claim;
      && p in t.states[j].store.leases && t.states[j].store.leases[p].route == Some(route)
      && (r == Verify(c.uuid, c.epoch, c.activationId, tokens) && c.routeLease in tokens ==>
            Verified(t.states[j].store.leases, p, r))
      && (r == Renew(c.epoch, c.activationId, c.routeLease, c.generation) ==>
            RenewalAccepted(t.states[j].store.leases, p, r))
  {
    assert SteppedAt(t, i);
    ClaimCommitted(t.states[i].store, t.states[i].now, t.states[i].tasks[id], route);
    LeaseLivesOn(t, i + 1, j, t.states[i].tasks[id].peer);
  }
}
