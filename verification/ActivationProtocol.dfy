/**
 The profile activation registry as a transition system.

 Requests run as tasks. A task first obtains its peer's lock object from the
 lock table, then waits for that lock, then works through its operation one
 atomic access at a time, and finally ends, which releases the lock. An accepted
 registration, renewal or deactivation leaves an outstanding claim: its task
 stays, still holding the lock, until it commits or is dropped. Tasks of all
 peers interleave freely, and two kinds of step touch records without taking
 their peer's lock: the retention sweep run on behalf of another peer, and the
 bulk disconnection of web sockets.
 */
module ActivationProtocol {
  import opened Basics
  import opened ActivationTables

  type TaskId = nat

  datatype Request =
    | Register(uuid: Bytes, publicKey: Bytes, epoch: nat, activationId: Bytes, fast: bool)
    | Renew(epoch: nat, activationId: Bytes, routeLease: Bytes, generation: nat)
    | Deactivate(uuid: Bytes, epoch: nat, activationId: Bytes, routeLease: Bytes, generation: nat)
    | Verify(uuid: Bytes, epoch: nat, activationId: Bytes, routeLeases: seq<Bytes>)
    | Touch(route: Route)
    | Disconnect(route: Route)

  /** An outstanding registration. */
  datatype Claim = Claim(
    uuid: Bytes, publicKey: Bytes, epoch: nat, activationId: Bytes, routeLease: Bytes,
    generation: nat, previous: Option<Route>, tracked: bool, isNew: bool, reserved: bool)

  /** Where a task stands; `now` is the clock value read on getting the lock. */
  datatype Stage =
    | Waiting
    | Maintaining(now: nat)
    | Sweeping(now: nat)
    | Expiring(now: nat)
    | Checking(now: nat)
    | Bursting(now: nat, existing: bool, previous: Option<Route>)
    | Remembering(existing: bool, previous: Option<Route>)
    | Measuring(previous: Option<Route>)
    | Reserving(active: nat, previous: Option<Route>)
    | Unreserving
    | Issuing(reserved: bool, previous: Option<Route>)
    | Claimed(claim: Claim)
    | Settling
    | Renewing(generation: nat, previous: Option<Route>, tracked: bool)
    | Deactivating(epoch: nat, generation: nat, route: Route)

  datatype Task = Task(peer: PeerId, request: Request, lock: Lock, stage: Stage)

  /** One allocated lock object: made for a peer, told apart from others by its serial number. */
  datatype Lock = Lock(owner: PeerId, serial: nat)

  /**
   The shared tables. The generation counter is kept as the list of the peers its
   values were handed to, so that its next value is one more than the list's length.
   */
  datatype Store = Store(
    issued: seq<Option<PeerId>>, leases: Leases, v2Peers: set<PeerId>, bursts: Bursts,
    pending: nat, calls: nat)

  /** `held` says which task's guard currently holds each lock object. */
  datatype State = State(
    now: nat, serial: nat, locks: map<PeerId, Lock>, held: map<Lock, TaskId>,
    tasks: map<TaskId, Task>, store: Store)

  const INITIAL := State(0, 0, map[], map[], map[], Store([], map[], {}, map[], 0, 0))

  /** What makes a running task move: its own next access, or a choice made outside. */
  datatype Input =
    | Access
    | Token(bytes: Bytes)
    | CommitRoute(route: Route)
    | RouteRemoved(removed: bool)
    | Drop

  datatype Event =
    | Start(id: TaskId, peer: PeerId, request: Request)
    | Acquire(id: TaskId)
    | Perform(id: TaskId, input: Input)
    | DisconnectNow(sockets: seq<Disconnection>)
    | TakeGeneration
    | Tick(time: nat)

  // What each request must look like before it touches any state.

  predicate ValidRegister(r: Request)
    requires r.Register?
  {
    && r.uuid != [] && r.publicKey != [] && |r.publicKey| <= PUBLIC_KEY_MAX_BYTES
    && (r.activationId == [] ==> r.epoch == 0)
    && (r.activationId != [] ==>
          |r.activationId| == ACTIVATION_ID_BYTES && r.epoch != 0 && |r.uuid| == UUID_BYTES)
  }

  predicate ValidRenew(r: Request)
    requires r.Renew?
  {
    && (r.activationId == [] ==> r.epoch == 0 && r.routeLease == [] && r.generation == 0)
    && (r.activationId != [] ==>
          && |r.activationId| == ACTIVATION_ID_BYTES && r.epoch != 0
          && |r.routeLease| == ROUTE_LEASE_BYTES && r.generation != 0)
  }

  predicate ValidRequest(peer: PeerId, r: Request) {
    match r
    case Register(_, _, _, _, _) => peer.name != "" && ValidRegister(r)
    case Renew(_, _, _, _) => peer.name != "" && ValidRenew(r)
    case Deactivate(uuid, epoch, id, lease, generation) =>
      peer.name != "" && |uuid| == UUID_BYTES && epoch != 0 && |id| == ACTIVATION_ID_BYTES &&
      |lease| == ROUTE_LEASE_BYTES && generation != 0
    case Verify(uuid, epoch, id, leases) =>
      peer.name != "" && |uuid| == UUID_BYTES && epoch != 0 && |id| == ACTIVATION_ID_BYTES &&
      0 < |leases| <= 16 && forall i :: 0 <= i < |leases| ==> |leases[i]| == ROUTE_LEASE_BYTES
    case Touch(_) => true
    case Disconnect(_) => true
  }

  // Reading the peer's record.

  datatype Classification =
    | Stale
    | Reuse(routeLease: Bytes, generation: nat, route: Route)
    | Fresh(existing: bool, previous: Option<Route>)

  function Classify(leases: Leases, peer: PeerId, r: Request): Classification
    requires r.Register?
  {
    if peer !in leases then Fresh(false, None)
    else
      var current := leases[peer];
      if current.uuid != r.uuid || r.epoch < current.epoch then Stale
      else if r.epoch == current.epoch &&
              (current.activationId != r.activationId || current.publicKey != r.publicKey || current.retired)
      then Stale
      else if r.epoch == current.epoch && current.route.Some?
      then Reuse(current.routeLease, current.generation, current.route.value)
      else Fresh(true, current.route)
  }

  /** Does the record carry exactly the lease the request names? */
  predicate Names(lease: Lease, epoch: nat, id: Bytes, token: Bytes, generation: nat) {
    && !lease.retired && lease.route.Some? && lease.epoch == epoch && lease.activationId == id
    && lease.routeLease == token && lease.generation == generation
  }

  /** `begin_renewal` accepts the request as a renewal of the peer's current lease. */
  predicate RenewalAccepted(leases: Leases, peer: PeerId, r: Request)
    requires r.Renew?
  {
    peer in leases && Names(leases[peer], r.epoch, r.activationId, r.routeLease, r.generation)
  }

  /** `begin_renewal` accepts a peer that never activated a profile, without tracking it. */
  predicate LegacyRenewal(leases: Leases, peer: PeerId, r: Request)
    requires r.Renew?
  {
    r.activationId == [] && (peer !in leases || leases[peer].route.None? || leases[peer].retired)
  }

  predicate DeactivationAccepted(leases: Leases, peer: PeerId, r: Request)
    requires r.Deactivate?
  {
    && peer in leases && leases[peer].uuid == r.uuid
    && Names(leases[peer], r.epoch, r.activationId, r.routeLease, r.generation)
  }

  /** What `verify_active` answers: the record is live, is this activation's, and its token is among those named. */
  predicate Verified(leases: Leases, peer: PeerId, r: Request)
    requires r.Verify?
  {
    && peer in leases && !leases[peer].retired && leases[peer].route.Some? && leases[peer].uuid == r.uuid
    && leases[peer].epoch == r.epoch && leases[peer].activationId == r.activationId
    && exists i :: 0 <= i < |r.routeLeases| && r.routeLeases[i] == leases[peer].routeLease
  }

  // What one access of a running task does to the tables, and where it goes next.

  datatype Move = Blocked | Continue(store: Store, stage: Stage) | Finish(store: Store)

  function NextGeneration(store: Store): nat {
    |store.issued| + 1
  }

  function Take(store: Store, taker: Option<PeerId>): Store {
    store.(issued := store.issued + [taker])
  }

  function RunBurst(store: Store, peer: PeerId, r: Request, now: nat): (Store, Verdict)
    requires r.Register?
  {
    if !r.fast then (store, Pass)
    else
      var result := CheckBurst(store.bursts, store.calls, Identity(peer, r.uuid, r.publicKey), now);
      (store.(bursts := result.0), result.1)
  }

  function CheckRegister(store: Store, peer: PeerId, r: Request, now: nat): Move
    requires r.Register?
  {
    if r.activationId == [] then
      if peer in store.v2Peers then Finish(store)
      else
        Continue(Take(store, Some(peer)),
                 Claimed(Claim(r.uuid, r.publicKey, 0, [], [], NextGeneration(store), None, false, false, false)))
    else
      match Classify(store.leases, peer, r)
      case Stale => Finish(store)
      case Reuse(token, generation, route) =>
        var result := RunBurst(store, peer, r, now);
        if result.1.Pass? then
          Continue(result.0, Claimed(Claim(r.uuid, r.publicKey, r.epoch, r.activationId, token, generation,
                                           Some(route), true, false, false)))
        else Finish(result.0)
      case Fresh(existing, previous) => Continue(store, Bursting(now, existing, previous))
  }

  function CheckOther(store: Store, clock: nat, peer: PeerId, r: Request): Move
    requires !r.Register?
  {
    var leases := store.leases;
    match r
    case Renew(_, _, _, generation) =>
      if LegacyRenewal(leases, peer, r) then Continue(store, Renewing(0, None, false))
      else if RenewalAccepted(leases, peer, r) then Continue(store, Renewing(generation, leases[peer].route, true))
      else Finish(store)
    case Deactivate(_, epoch, _, _, generation) =>
      if DeactivationAccepted(leases, peer, r)
      then Continue(store, Deactivating(epoch, generation, leases[peer].route.value))
      else Finish(store)
    case Verify(_, _, _, _) => Finish(store)
    case Touch(route) =>
      if HoldsRoute(leases, peer, route)
      then Finish(store.(leases := leases[peer := leases[peer].(updatedAt := clock)]))
      else Finish(store)
    case Disconnect(route) => Finish(store.(leases := DisconnectOne(leases, peer, route, clock)))
  }

  function Remember(store: Store, peer: PeerId, existing: bool, previous: Option<Route>): Move {
    if peer !in store.v2Peers && |store.v2Peers| >= MAX_V2_PEERS then Finish(store)
    else
      Continue(store.(v2Peers := store.v2Peers + {peer}),
               if existing then Issuing(false, previous) else Measuring(previous))
  }

  /** The internal accesses, in the order the operations make them. */
  function AccessMove(store: Store, clock: nat, task: Task): Move {
    match task.stage
    case Maintaining(now) =>
      Continue(store.(calls := store.calls + 1),
               if MaintenanceDue(store.calls) then Sweeping(now) else Expiring(now))
    case Sweeping(now) => Continue(store.(leases := Sweep(store.leases, now)), Expiring(now))
    case Expiring(now) =>
      Continue(store.(leases := ExpireRoute(store.leases, task.peer, now)), Checking(now))
    case Checking(now) =>
      if task.request.Register? then CheckRegister(store, task.peer, task.request, now)
      else CheckOther(store, clock, task.peer, task.request)
    case Bursting(now, existing, previous) =>
      if !task.request.Register? then Blocked
      else
        var result := RunBurst(store, task.peer, task.request, now);
        if result.1.Pass? then Continue(result.0, Remembering(existing, previous)) else Finish(result.0)
    case Remembering(existing, previous) => Remember(store, task.peer, existing, previous)
    case Measuring(previous) => Continue(store, Reserving(|store.leases|, previous))
    case Reserving(active, previous) =>
      Continue(store.(pending := store.pending + 1),
               if active + store.pending >= MAX_LEASES then Unreserving else Issuing(true, previous))
    case Unreserving => GiveBack(store)
    case Settling => GiveBack(store)
    case _ => Blocked
  }

  /** `pending_new_leases.fetch_sub(1)`; never blocked, see ActivationTheorems.CapacityBound. */
  function GiveBack(store: Store): Move {
    if store.pending == 0 then Blocked else Finish(store.(pending := store.pending - 1))
  }

  function IssueMove(store: Store, task: Task, token: Bytes): Move {
    if !task.stage.Issuing? || !task.request.Register? || |token| != ROUTE_LEASE_BYTES then Blocked
    else
      var r := task.request;
      Continue(Take(store, Some(task.peer)),
               Claimed(Claim(r.uuid, r.publicKey, r.epoch, r.activationId, token, NextGeneration(store),
                             task.stage.previous, true, true, task.stage.reserved)))
  }

  function Committed(claim: Claim, route: Route, clock: nat): Lease {
    Lease(claim.uuid, claim.publicKey, claim.epoch, claim.activationId, claim.routeLease,
          claim.generation, Some(route), false, clock)
  }

  /** The claim is consumed; a capacity reservation is given back in a step of its own. */
  function Conclude(store: Store, reserved: bool): Move {
    if reserved then Continue(store, Settling) else Finish(store)
  }

  predicate RenewalApplies(leases: Leases, peer: PeerId, generation: nat) {
    peer in leases && leases[peer].generation == generation && !leases[peer].retired
  }

  function CommitMove(store: Store, clock: nat, task: Task, route: Route): Move {
    match task.stage
    case Claimed(claim) =>
      Conclude(if claim.tracked
               then store.(leases := store.leases[task.peer := Committed(claim, route, clock)])
               else store, claim.reserved)
    case Renewing(generation, _, tracked) =>
      Finish(if tracked && RenewalApplies(store.leases, task.peer, generation)
             then store.(leases := store.leases[task.peer :=
                           store.leases[task.peer].(route := Some(route), updatedAt := clock)])
             else store)
    case _ => Blocked
  }

  predicate DeactivationApplies(leases: Leases, peer: PeerId, epoch: nat, generation: nat, route: Route) {
    && peer in leases && leases[peer].epoch == epoch && leases[peer].generation == generation
    && leases[peer].route == Some(route) && !leases[peer].retired
  }

  function DeactivateMove(store: Store, clock: nat, task: Task, removed: bool): Move {
    match task.stage
    case Deactivating(epoch, generation, route) =>
      Finish(if removed && DeactivationApplies(store.leases, task.peer, epoch, generation, route)
             then store.(leases := store.leases[task.peer :=
                           Unrouted(store.leases[task.peer], clock).(retired := true)])
             else store)
    case _ => Blocked
  }

  /** Dropping a claim, or cancelling a request at a point where it awaits something. */
  function DropMove(store: Store, task: Task): Move {
    match task.stage
    case Reserving(_, _) => Blocked
    case Unreserving => Blocked
    case Issuing(_, _) => Blocked
    case Settling => Blocked
    case Claimed(claim) => Conclude(store, claim.reserved)
    case _ => Finish(store)
  }

  function Work(store: Store, clock: nat, task: Task, input: Input): Move {
    match input
    case Access => AccessMove(store, clock, task)
    case Token(bytes) => IssueMove(store, task, bytes)
    case CommitRoute(route) => CommitMove(store, clock, task, route)
    case RouteRemoved(removed) => DeactivateMove(store, clock, task, removed)
    case Drop => DropMove(store, task)
  }

  // Locks and scheduling.

  predicate Referenced(tasks: map<TaskId, Task>, lock: Lock) {
    exists t :: t in tasks && tasks[t].lock == lock
  }

  /** Entries whose lock no task holds or waits for (`Arc::strong_count` is one) are dropped. */
  function EvictIdle(locks: map<PeerId, Lock>, tasks: map<TaskId, Task>): map<PeerId, Lock> {
    map p | p in locks && Referenced(tasks, locks[p]) :: locks[p]
  }

  /** `peer_lock`: find or make the peer's lock; a full table is trimmed first and may stay full. */
  function PeerLock(s: State, peer: PeerId): State {
    if peer in s.locks then s
    else if |s.locks| < MAX_PEER_LOCKS then NewLock(s, peer)
    else
      var trimmed := s.(locks := EvictIdle(s.locks, s.tasks));
      if |trimmed.locks| < MAX_PEER_LOCKS then NewLock(trimmed, peer) else trimmed
  }

  function NewLock(s: State, peer: PeerId): State {
    s.(serial := s.serial + 1, locks := s.locks[peer := Lock(peer, s.serial)])
  }

  /** The request queues on its peer's lock, or is refused when there is none. */
  function Enqueue(s: State, t: TaskId, peer: PeerId, r: Request): State {
    if peer in s.locks then s.(tasks := s.tasks[t := Task(peer, r, s.locks[peer], Waiting)]) else s
  }

  function FirstStage(r: Request, now: nat): Stage {
    match r
    case Register(_, _, _, _, _) => Maintaining(now)
    case Touch(_) => Checking(now)
    case Disconnect(_) => Checking(now)
    case _ => Expiring(now)
  }

  function MoveTask(s: State, t: TaskId, move: Move): Option<State>
    requires t in s.tasks
  {
    match move
    case Blocked => None
    case Continue(store, stage) => Some(s.(tasks := s.tasks[t := s.tasks[t].(stage := stage)], store := store))
    case Finish(store) =>
      Some(s.(tasks := Without(s.tasks, t), store := store,
              held := if s.tasks[t].stage.Waiting? then s.held else Without(s.held, s.tasks[t].lock)))
  }

  /** The registry's next state, or None when the event cannot happen. */
  function Step(s: State, e: Event): Option<State> {
    match e
    case Start(t, peer, r) =>
      if t in s.tasks then None
      else Some(if ValidRequest(peer, r) then Enqueue(PeerLock(s, peer), t, peer, r) else s)
    case Acquire(t) =>
      if t !in s.tasks || !s.tasks[t].stage.Waiting? || s.tasks[t].lock in s.held then None
      else
        Some(s.(tasks := s.tasks[t := s.tasks[t].(stage := FirstStage(s.tasks[t].request, s.now))],
                held := s.held[s.tasks[t].lock := t]))
    case Perform(t, input) =>
      if t !in s.tasks then None else MoveTask(s, t, Work(s.store, s.now, s.tasks[t], input))
    case DisconnectNow(sockets) =>
      Some(s.(store := s.store.(leases := DisconnectSockets(s.store.leases, sockets, s.now))))
    case TakeGeneration => Some(s.(store := Take(s.store, None)))
    case Tick(time) => if time < s.now then None else Some(s.(now := time))
  }

  ghost predicate StepsTo(s: State, e: Event, next: Option<State>) {
    Step(s, e) == next
  }

  /** The event leads from one state to the other. */
  ghost predicate Leads(s: State, e: Event, s': State) {
    forall next: Option<State> :: next == Some(s') ==> StepsTo(s, e, next)
  }

  ghost predicate Follows(s: State, s': State) {
    exists e :: Leads(s, e, s')
  }

  lemma {:induction false} EventBetween(s: State, s': State) returns (e: Event)
    requires Follows(s, s')
    ensures Step(s, e) == Some(s')
  {
    e :| Leads(s, e, s');
    assert StepsTo(s, e, Some(s'));
  }

  ghost predicate StepAt(run: seq<State>, i: nat)
    requires i + 1 < |run|
  {
    Follows(run[i], run[i + 1])
  }

  /** `run` lists the states of an execution from the empty registry, one step apart. */
  ghost predicate IsRun(run: seq<State>) {
    run != [] && run[0] == INITIAL && forall i: nat :: i + 1 < |run| ==> StepAt(run, i)
  }
}
