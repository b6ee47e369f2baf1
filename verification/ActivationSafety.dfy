/** What every interleaving of the activation protocol keeps. */
module ActivationSafety {
  import opened Basics
  import opened ActivationTables
  import opened ActivationProtocol

  // Locks: evicting idle entries never breaks per-peer mutual exclusion.

  ghost predicate Running(s: State, t: TaskId) {
    t in s.tasks && !s.tasks[t].stage.Waiting?
  }

  /**
   Every task of a peer, waiting or running, refers to the one lock the table has
   for that peer, and a running task is the one whose guard holds it.
   */
  ghost predicate LocksAgree(s: State) {
    && |s.locks| <= MAX_PEER_LOCKS
    && (forall p :: p in s.locks ==> s.locks[p].owner == p && s.locks[p].serial < s.serial)
    && (forall t :: t in s.tasks ==> s.tasks[t].peer in s.locks && s.locks[s.tasks[t].peer] == s.tasks[t].lock)
    && (forall t :: Running(s, t) ==> s.tasks[t].lock in s.held && s.held[s.tasks[t].lock] == t)
    && (forall l :: l in s.held ==> Running(s, s.held[l]) && s.tasks[s.held[l]].lock == l)
  }

  lemma {:induction false} WorkRuns(store: Store, clock: nat, task: Task, input: Input)
    ensures Work(store, clock, task, input).Continue? ==>
      !task.stage.Waiting? && !Work(store, clock, task, input).stage.Waiting?
  {
  }

  /** Eviction only takes entries that no task refers to. */
  lemma {:induction false} EvictKeeps(s: State)
    requires LocksAgree(s)
    ensures LocksAgree(s.(locks := EvictIdle(s.locks, s.tasks)))
  {
    SubsetSize(EvictIdle(s.locks, s.tasks).Keys, s.locks.Keys);
    forall t | t in s.tasks ensures s.tasks[t].peer in EvictIdle(s.locks, s.tasks) {
      assert Referenced(s.tasks, s.tasks[t].lock);
    }
  }

  lemma {:induction false} NewLockKeeps(s: State, peer: PeerId)
    requires LocksAgree(s) && peer !in s.locks && |s.locks| < MAX_PEER_LOCKS
    ensures LocksAgree(NewLock(s, peer))
  {
  }

  lemma {:induction false} PeerLockKeeps(s: State, peer: PeerId)
    requires LocksAgree(s)
    ensures LocksAgree(PeerLock(s, peer))
    ensures PeerLock(s, peer).tasks == s.tasks && PeerLock(s, peer).store == s.store
  {
    if peer !in s.locks {
      if |s.locks| < MAX_PEER_LOCKS {
        NewLockKeeps(s, peer);
      } else {
        EvictKeeps(s);
        var trimmed := s.(locks := EvictIdle(s.locks, s.tasks));
        if |trimmed.locks| < MAX_PEER_LOCKS { NewLockKeeps(trimmed, peer); }
      }
    }
  }

  lemma {:induction false} EnqueueKeeps(s: State, t: TaskId, peer: PeerId, r: Request)
    requires LocksAgree(s) && t !in s.tasks
    ensures LocksAgree(Enqueue(s, t, peer, r))
  {
    var s' := Enqueue(s, t, peer, r);
    forall u | Running(s', u) ensures s'.tasks[u].lock in s'.held && s'.held[s'.tasks[u].lock] == u {
      assert Running(s, u);
    }
  }

  lemma {:induction false} LocksAcquire(s: State, t: TaskId, s': State)
    requires LocksAgree(s) && Step(s, Acquire(t)) == Some(s')
    ensures LocksAgree(s')
  {
    assert forall u :: u != t ==> (Running(s', u) <==> Running(s, u));
  }

  lemma {:induction false} LocksMove(s: State, t: TaskId, move: Move, s': State)
    requires LocksAgree(s) && t in s.tasks && MoveTask(s, t, move) == Some(s')
    requires move.Continue? ==> !s.tasks[t].stage.Waiting? && !move.stage.Waiting?
    ensures LocksAgree(s')
  {
    if move.Finish? {
      forall u | Running(s', u) ensures s'.tasks[u].lock in s'.held && s'.held[s'.tasks[u].lock] == u {
        assert Running(s, u);
      }
    }
  }

  lemma {:induction false} LocksStep(s: State, e: Event, s': State)
    requires LocksAgree(s) && Step(s, e) == Some(s')
    ensures LocksAgree(s')
  {
    match e
    case Start(t, peer, r) =>
      PeerLockKeeps(s, peer);
      EnqueueKeeps(PeerLock(s, peer), t, peer, r);
    case Acquire(t) => LocksAcquire(s, t, s');
    case Perform(t, input) =>
      WorkRuns(s.store, s.now, s.tasks[t], input);
      LocksMove(s, t, Work(s.store, s.now, s.tasks[t], input), s');
    case _ =>
  }

  // Records and claims.

  ghost predicate IssuedTo(store: Store, generation: nat, peer: PeerId) {
    1 <= generation <= |store.issued| && store.issued[generation - 1] == Some(peer)
  }

  ghost predicate RecordOk(store: Store, peer: PeerId)
    requires peer in store.leases
  {
    && IssuedTo(store, store.leases[peer].generation, peer) && peer in store.v2Peers
    && |store.leases[peer].activationId| == ACTIVATION_ID_BYTES
  }

  ghost predicate StoreOk(store: Store) {
    |store.v2Peers| <= MAX_V2_PEERS && forall p :: p in store.leases ==> RecordOk(store, p)
  }

  /** A record the identity (uuid, epoch, id, key) may replace: its own, not newer, not retired. */
  ghost predicate Yields(lease: Lease, uuid: Bytes, epoch: nat, id: Bytes, key: Bytes) {
    && lease.uuid == uuid && lease.epoch <= epoch
    && (lease.epoch == epoch ==> lease.activationId == id && lease.publicKey == key && !lease.retired)
  }

  ghost predicate Admits(store: Store, task: Task) {
    && task.request.Register? && |task.request.activationId| == ACTIVATION_ID_BYTES
    && (task.peer in store.leases ==>
          Yields(store.leases[task.peer], task.request.uuid, task.request.epoch,
                 task.request.activationId, task.request.publicKey))
  }

  ghost predicate ClaimOk(store: Store, peer: PeerId, c: Claim) {
    && IssuedTo(store, c.generation, peer) && (c.reserved ==> c.isNew) && (c.isNew ==> c.tracked)
    && (c.tracked ==> peer in store.v2Peers && |c.activationId| == ACTIVATION_ID_BYTES)
    && (c.reserved ==> peer !in store.leases)
    && (c.tracked && peer in store.leases ==>
          var lease := store.leases[peer];
          && Yields(lease, c.uuid, c.epoch, c.activationId, c.publicKey)
          && (if c.isNew then lease.generation < c.generation
              else lease.generation == c.generation && lease.epoch == c.epoch))
  }

  /** What a task may rely on at each stage, whatever the other peers' tasks do. */
  ghost predicate TaskOk(store: Store, task: Task) {
    ValidRequest(task.peer, task.request) &&
    match task.stage
    case Bursting(_, existing, _) => Admits(store, task) && (!existing ==> task.peer !in store.leases)
    case Remembering(existing, _) => Admits(store, task) && (!existing ==> task.peer !in store.leases)
    case Measuring(_) => Admits(store, task) && task.peer !in store.leases && task.peer in store.v2Peers
    case Reserving(_, _) => Admits(store, task) && task.peer !in store.leases && task.peer in store.v2Peers
    case Issuing(reserved, _) =>
      Admits(store, task) && task.peer in store.v2Peers && (reserved ==> task.peer !in store.leases)
    case Claimed(claim) => ClaimOk(store, task.peer, claim)
    case _ => true
  }

  ghost predicate Weakens(before: Lease, after: Lease) {
    after == before || after == Unrouted(before, after.updatedAt)
  }

  /** What a step may do to the tables as seen by every peer other than `exempt`. */
  ghost predicate Foreign(store: Store, store': Store, exempt: Option<PeerId>) {
    && |store.issued| <= |store'.issued| && store.v2Peers <= store'.v2Peers
    && (forall i :: 0 <= i < |store.issued| ==> store'.issued[i] == store.issued[i])
    && (forall q :: q in store'.leases && Some(q) != exempt ==>
          q in store.leases && Weakens(store.leases[q], store'.leases[q]))
  }

  lemma {:induction false} ForeignKeepsTask(store: Store, store': Store, exempt: Option<PeerId>, task: Task)
    requires Foreign(store, store', exempt) && Some(task.peer) != exempt && TaskOk(store, task)
    ensures TaskOk(store', task)
  {
  }

  ghost function StoreOf(store: Store, move: Move): Store {
    if move.Blocked? then store else move.store
  }

  lemma {:induction false} AccessForeign(store: Store, clock: nat, task: Task)
    ensures Foreign(store, StoreOf(store, AccessMove(store, clock, task)), Some(task.peer))
  {
  }

  lemma {:induction false} WorkForeign(store: Store, clock: nat, task: Task, input: Input)
    ensures Foreign(store, StoreOf(store, Work(store, clock, task, input)), Some(task.peer))
  {
    AccessForeign(store, clock, task);
  }

  lemma {:induction false} DisconnectForeign(store: Store, sockets: seq<Disconnection>, now: nat)
    ensures Foreign(store, store.(leases := DisconnectSockets(store.leases, sockets, now)), None)
    decreases |sockets|
  {
    if sockets != [] {
      DisconnectForeign(store, sockets[..|sockets| - 1], now);
    }
  }

  ghost predicate MoveOk(store: Store, task: Task, move: Move) {
    && StoreOk(StoreOf(store, move))
    && (move.Continue? ==> TaskOk(move.store, task.(stage := move.stage)))
  }

  lemma {:induction false} CheckRegisterOk(store: Store, task: Task, now: nat)
    requires StoreOk(store) && TaskOk(store, task) && task.request.Register?
    ensures MoveOk(store, task, CheckRegister(store, task.peer, task.request, now))
  {
  }

  lemma {:induction false} CheckOtherOk(store: Store, clock: nat, task: Task)
    requires StoreOk(store) && TaskOk(store, task) && !task.request.Register?
    ensures MoveOk(store, task, CheckOther(store, clock, task.peer, task.request))
  {
  }

  /** The accesses that only expire or sweep. */
  lemma {:induction false} MaintenanceOk(store: Store, clock: nat, task: Task)
    requires StoreOk(store) && TaskOk(store, task)
    requires task.stage.Maintaining? || task.stage.Sweeping? || task.stage.Expiring?
    ensures MoveOk(store, task, AccessMove(store, clock, task))
  {
  }

  lemma {:induction false} RememberingOk(store: Store, clock: nat, task: Task)
    requires StoreOk(store) && TaskOk(store, task) && (task.stage.Bursting? || task.stage.Remembering?)
    ensures MoveOk(store, task, AccessMove(store, clock, task))
  {
  }

  lemma {:induction false} AccessOk(store: Store, clock: nat, task: Task)
    requires StoreOk(store) && TaskOk(store, task)
    ensures MoveOk(store, task, AccessMove(store, clock, task))
  {
    if task.stage.Maintaining? || task.stage.Sweeping? || task.stage.Expiring? {
      MaintenanceOk(store, clock, task);
    } else if task.stage.Bursting? || task.stage.Remembering? {
      RememberingOk(store, clock, task);
    } else if task.stage.Checking? {
      if task.request.Register? {
        CheckRegisterOk(store, task, task.stage.now);
      } else {
        CheckOtherOk(store, clock, task);
      }
    }
  }

  lemma {:induction false} WorkOk(store: Store, clock: nat, task: Task, input: Input)
    requires StoreOk(store) && TaskOk(store, task)
    ensures MoveOk(store, task, Work(store, clock, task, input))
  {
    if input.Access? { AccessOk(store, clock, task); }
  }

  // The reservation counter.

  /** Stages between the counter's `fetch_add` and its `fetch_sub`. */
  predicate Counts(stage: Stage) {
    match stage
    case Unreserving => true
    case Issuing(reserved, _) => reserved
    case Claimed(claim) => claim.reserved
    case Settling => true
    case _ => false
  }

  function Counted(tasks: map<TaskId, Task>): set<TaskId> {
    set t | t in tasks && Counts(tasks[t].stage)
  }

  function Weight(stage: Stage): nat {
    if Counts(stage) then 1 else 0
  }

  lemma {:induction false} WorkCounts(store: Store, clock: nat, task: Task, input: Input)
    ensures var move := Work(store, clock, task, input);
      && (move.Continue? ==> move.store.pending + Weight(task.stage) == store.pending + Weight(move.stage))
      && (move.Finish? ==> move.store.pending + Weight(task.stage) == store.pending)
  {
  }

  lemma {:induction false} CountAt(tasks: map<TaskId, Task>, t: TaskId)
    requires t in tasks
    ensures |Counted(tasks)| == |Counted(Without(tasks, t))| + Weight(tasks[t].stage)
  {
    var rest := Counted(Without(tasks, t));
    if Counts(tasks[t].stage) {
      assert Counted(tasks) == rest + {t};
    } else {
      assert Counted(tasks) == rest;
    }
  }

  lemma {:induction false} CountMove(tasks: map<TaskId, Task>, t: TaskId, stage: Stage)
    requires t in tasks
    ensures var tasks' := tasks[t := tasks[t].(stage := stage)];
      |Counted(tasks')| + Weight(tasks[t].stage) == |Counted(tasks)| + Weight(stage)
  {
    var tasks' := tasks[t := tasks[t].(stage := stage)];
    CountAt(tasks, t);
    CountAt(tasks', t);
    assert Without(tasks', t) == Without(tasks, t);
  }

  // The invariant.

  ghost predicate TasksOk(s: State) {
    forall t :: t in s.tasks ==> TaskOk(s.store, s.tasks[t])
  }

  ghost predicate Inv(s: State) {
    LocksAgree(s) && StoreOk(s.store) && TasksOk(s) && s.store.pending == |Counted(s.tasks)|
  }

  lemma {:induction false} TasksPerform(s: State, t: TaskId, input: Input, s': State)
    requires LocksAgree(s) && StoreOk(s.store) && TasksOk(s) && Step(s, Perform(t, input)) == Some(s')
    ensures StoreOk(s'.store) && TasksOk(s')
  {
    var task := s.tasks[t];
    WorkOk(s.store, s.now, task, input);
    WorkForeign(s.store, s.now, task, input);
    forall u | u in s'.tasks ensures TaskOk(s'.store, s'.tasks[u]) {
      if u != t && Running(s, u) && Running(s, t) {
        assert s.tasks[u].peer != task.peer;
        ForeignKeepsTask(s.store, s'.store, Some(task.peer), s.tasks[u]);
      }
    }
  }

  lemma {:induction false} TasksForeign(s: State, store': Store)
    requires StoreOk(s.store) && TasksOk(s) && Foreign(s.store, store', None)
    requires |store'.v2Peers| <= MAX_V2_PEERS
    ensures StoreOk(store') && TasksOk(s.(store := store'))
  {
    forall t | t in s.tasks ensures TaskOk(store', s.tasks[t]) {
      ForeignKeepsTask(s.store, store', None, s.tasks[t]);
    }
  }

  /** Starting or admitting a task adds no claim and no reservation. */
  lemma {:induction false} PutIdle(s: State, t: TaskId, task: Task, s': State)
    requires TasksOk(s) && s'.store == s.store && s'.tasks == s.tasks[t := task]
    requires TaskOk(s.store, task) && !Counts(task.stage) && (t in s.tasks ==> !Counts(s.tasks[t].stage))
    ensures Counted(s'.tasks) == Counted(s.tasks) && TasksOk(s')
  {
  }

  lemma {:induction false} TasksSchedule(s: State, e: Event, s': State)
    requires LocksAgree(s) && TasksOk(s) && (e.Start? || e.Acquire? || e.Tick?) && Step(s, e) == Some(s')
    ensures s'.store == s.store && TasksOk(s') && Counted(s'.tasks) == Counted(s.tasks)
  {
    if e.Start? {
      PeerLockKeeps(s, e.peer);
      if e.id in s'.tasks { PutIdle(s, e.id, s'.tasks[e.id], s'); }
    } else if e.Acquire? {
      PutIdle(s, e.id, s'.tasks[e.id], s');
    }
  }

  lemma {:induction false} InvStep(s: State, e: Event, s': State)
    requires Inv(s) && Step(s, e) == Some(s')
    ensures Inv(s')
  {
    LocksStep(s, e, s');
    if e.Perform? {
      TasksPerform(s, e.id, e.input, s');
      WorkCounts(s.store, s.now, s.tasks[e.id], e.input);
      var move := Work(s.store, s.now, s.tasks[e.id], e.input);
      if move.Continue? { CountMove(s.tasks, e.id, move.stage); } else { CountAt(s.tasks, e.id); }
    } else {
      if e.DisconnectNow? { DisconnectForeign(s.store, e.sockets, s.now); }
      if e.DisconnectNow? || e.TakeGeneration? {
        TasksForeign(s, s'.store);
      } else {
        TasksSchedule(s, e, s');
      }
    }
  }
}
