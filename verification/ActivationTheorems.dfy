/** The guarantees of the activation registry over whole executions. */
module ActivationTheorems {
  import opened Basics
  import opened ActivationTables
  import opened ActivationProtocol
  import opened ActivationSafety

  lemma {:induction false} InvFollows(s: State, s': State)
    requires Inv(s) && Follows(s, s')
    ensures Inv(s')
  {
    var e := EventBetween(s, s');
    InvStep(s, e, s');
  }

  lemma {:induction false} InitialInv()
    ensures Inv(INITIAL)
  {
    assert Counted(INITIAL.tasks) == {};
  }

  /** Every state of every execution satisfies the invariant. */
  lemma {:induction false} ReachableInv(run: seq<State>, i: nat)
    requires IsRun(run) && i < |run|
    ensures Inv(run[i])
  {
    if i == 0 {
      InitialInv();
    } else {
      ReachableInv(run, i - 1);
      assert StepAt(run, i - 1);
      InvFollows(run[i - 1], run[i]);
    }
  }

  // Mutual exclusion.

  /**
   Although idle lock objects are evicted and made anew, no two tasks of one peer
   ever run at once, and everyone queuing for the peer queues on the same object.
   */
  lemma {:induction false} OneTaskPerPeer(run: seq<State>, i: nat, t: TaskId, u: TaskId)
    requires IsRun(run) && i < |run|
    requires t in run[i].tasks && u in run[i].tasks && run[i].tasks[t].peer == run[i].tasks[u].peer
    ensures run[i].tasks[t].lock == run[i].tasks[u].lock
    ensures Running(run[i], t) && Running(run[i], u) ==> t == u
  {
    ReachableInv(run, i);
  }

  // Capacity.

  /** Claims that hold a reservation for a record not yet written. */
  function Reserved(tasks: map<TaskId, Task>): set<TaskId> {
    set t | t in tasks && (tasks[t].stage.Issuing? || tasks[t].stage.Claimed?) && Counts(tasks[t].stage)
  }

  function Peers(tasks: map<TaskId, Task>, ids: set<TaskId>): set<PeerId>
    requires ids <= tasks.Keys
  {
    set t | t in ids :: tasks[t].peer
  }

  lemma {:induction false} PeersSize(tasks: map<TaskId, Task>, ids: set<TaskId>)
    requires ids <= tasks.Keys
    requires forall t, u :: t in ids && u in ids && tasks[t].peer == tasks[u].peer ==> t == u
    ensures |Peers(tasks, ids)| == |ids|
    decreases |ids|
  {
    if ids == {} {
      assert Peers(tasks, ids) == {};
    } else {
      var t :| t in ids;
      PeersSize(tasks, ids - {t});
      assert Peers(tasks, ids) == Peers(tasks, ids - {t}) + {tasks[t].peer};
    }
  }

  lemma {:induction false} ReservedPeers(s: State) returns (peers: set<PeerId>)
    requires Inv(s)
    ensures |peers| == |Reserved(s.tasks)| && peers !! s.store.leases.Keys && peers <= s.store.v2Peers
  {
    var reserved := Reserved(s.tasks);
    peers := Peers(s.tasks, reserved);
    forall t, u | t in reserved && u in reserved && s.tasks[t].peer == s.tasks[u].peer ensures t == u {
      assert Running(s, t) && Running(s, u);
    }
    PeersSize(s.tasks, reserved);
    forall t | t in reserved
      ensures s.tasks[t].peer !in s.store.leases && s.tasks[t].peer in s.store.v2Peers
    {
      assert TaskOk(s.store, s.tasks[t]);
    }
  }

  lemma {:induction false} CapacityHere(s: State)
    requires Inv(s)
    ensures |s.store.leases| + |Reserved(s.tasks)| <= MAX_LEASES
  {
    var peers := ReservedPeers(s);
    var leased := s.store.leases.Keys;
    assert leased <= s.store.v2Peers by {
      assert forall p :: p in s.store.leases ==> RecordOk(s.store, p);
    }
    SubsetSize(leased + peers, s.store.v2Peers);
    assert |leased + peers| == |leased| + |peers|;
  }

  /**
   The record table and the claims about to extend it never exceed the cap together,
   although the reservation reads the table's size and bumps its counter in two
   separate accesses and a replaced record may be swept before its claim commits.
   The counter is exactly the number of reservations not yet given back, so no
   decrement ever underflows.
   */
  lemma {:induction false} CapacityBound(run: seq<State>, i: nat)
    requires IsRun(run) && i < |run|
    ensures |run[i].store.leases| + |Reserved(run[i].tasks)| <= MAX_LEASES
    ensures run[i].store.pending == |Counted(run[i].tasks)|
    ensures forall t :: t in run[i].tasks && Counts(run[i].tasks[t].stage) ==> run[i].store.pending > 0
  {
    ReachableInv(run, i);
    CapacityHere(run[i]);
    forall t | t in run[i].tasks && Counts(run[i].tasks[t].stage) ensures run[i].store.pending > 0 {
      assert t in Counted(run[i].tasks);
    }
  }

  /** Tasks whose reservation is still counted although it is no longer needed. */
  function Gap(tasks: map<TaskId, Task>): set<TaskId> {
    set t | t in tasks && (tasks[t].stage.Settling? || tasks[t].stage.Unreserving?)
  }

  /** In every state records and counter exceed the cap by no more tasks than are in that gap. */
  lemma {:induction false} CapacityWithGap(run: seq<State>, i: nat)
    requires IsRun(run) && i < |run|
    ensures |run[i].store.leases| + run[i].store.pending <= MAX_LEASES + |Gap(run[i].tasks)|
  {
    CapacityBound(run, i);
    var tasks := run[i].tasks;
    assert Counted(tasks) == Reserved(tasks) + Gap(tasks);
    assert Reserved(tasks) !! Gap(tasks);
  }

  /** Between the counter's own accesses it counts the outstanding reserved claims, within the same cap. */
  lemma {:induction false} CapacityAtRest(run: seq<State>, i: nat)
    requires IsRun(run) && i < |run|
    requires forall t :: t in run[i].tasks ==> !run[i].tasks[t].stage.Settling? && !run[i].tasks[t].stage.Unreserving?
    ensures run[i].store.pending == |Reserved(run[i].tasks)|
    ensures |run[i].store.leases| + run[i].store.pending <= MAX_LEASES
  {
    CapacityBound(run, i);
    assert Counted(run[i].tasks) == Reserved(run[i].tasks);
  }

  // Generations.

  /** No two peers ever hold the same generation. */
  lemma {:induction false} GenerationsDiffer(run: seq<State>, i: nat, p: PeerId, q: PeerId)
    requires IsRun(run) && i < |run| && p in run[i].store.leases && q in run[i].store.leases && p != q
    ensures run[i].store.leases[p].generation != run[i].store.leases[q].generation
  {
    ReachableInv(run, i);
    assert RecordOk(run[i].store, p) && RecordOk(run[i].store, q);
  }

  /** How one record may change while it is retained. */
  ghost predicate Evolves(before: Lease, after: Lease) {
    && after.uuid == before.uuid && before.epoch <= after.epoch && before.generation <= after.generation
    && (after.epoch == before.epoch ==>
          && after.activationId == before.activationId && after.publicKey == before.publicKey
          && (before.retired ==> after.retired))
    && (after.generation == before.generation ==> after.epoch == before.epoch)
  }

  lemma {:induction false} AccessEvolves(store: Store, clock: nat, task: Task)
    ensures var leases := StoreOf(store, AccessMove(store, clock, task)).leases;
      task.peer in leases ==> task.peer in store.leases && Evolves(store.leases[task.peer], leases[task.peer])
  {
  }

  lemma {:induction false} WorkEvolves(store: Store, clock: nat, task: Task, input: Input)
    requires TaskOk(store, task)
    ensures var leases := StoreOf(store, Work(store, clock, task, input)).leases;
      task.peer in store.leases && task.peer in leases ==>
        Evolves(store.leases[task.peer], leases[task.peer])
  {
    AccessEvolves(store, clock, task);
  }

  /** What a step that is not the peer's own work can do to the peer's record and claims. */
  ghost predicate SeenBy(s: State, s': State, p: PeerId) {
    && s.store.v2Peers <= s'.store.v2Peers && |s.store.issued| <= |s'.store.issued|
    && (p in s'.store.leases ==> p in s.store.leases && Weakens(s.store.leases[p], s'.store.leases[p]))
    && (forall t :: t in s'.tasks && s'.tasks[t].peer == p ==>
          !s'.tasks[t].stage.Claimed? || (t in s.tasks && s.tasks[t] == s'.tasks[t]))
  }

  lemma {:induction false} StartSeenBy(s: State, e: Event, s': State, p: PeerId)
    requires LocksAgree(s) && e.Start? && Step(s, e) == Some(s')
    ensures SeenBy(s, s', p)
  {
    PeerLockKeeps(s, e.peer);
  }

  lemma {:induction false} DisconnectSeenBy(s: State, e: Event, s': State, p: PeerId)
    requires e.DisconnectNow? && Step(s, e) == Some(s')
    ensures SeenBy(s, s', p)
  {
    DisconnectForeign(s.store, e.sockets, s.now);
  }

  lemma {:induction false} IdleSeenBy(s: State, e: Event, s': State, p: PeerId)
    requires (e.Acquire? || e.TakeGeneration? || e.Tick?) && Step(s, e) == Some(s')
    ensures SeenBy(s, s', p)
  {
  }

  lemma {:induction false} ScheduleSeenBy(s: State, e: Event, s': State, p: PeerId)
    requires LocksAgree(s) && !e.Perform? && Step(s, e) == Some(s')
    ensures SeenBy(s, s', p)
  {
    if e.DisconnectNow? {
      DisconnectSeenBy(s, e, s', p);
    } else if e.Start? {
      StartSeenBy(s, e, s', p);
    } else {
      IdleSeenBy(s, e, s', p);
    }
  }

  lemma {:induction false} StepSeenBy(s: State, e: Event, s': State, p: PeerId)
    requires LocksAgree(s) && Step(s, e) == Some(s') && !(e.Perform? && s.tasks[e.id].peer == p)
    ensures SeenBy(s, s', p)
  {
    if e.Perform? {
      WorkForeign(s.store, s.now, s.tasks[e.id], e.input);
    } else {
      ScheduleSeenBy(s, e, s', p);
    }
  }

  lemma {:induction false} EvolvesStep(s: State, e: Event, s': State, p: PeerId)
    requires Inv(s) && Step(s, e) == Some(s') && p in s.store.leases && p in s'.store.leases
    ensures Evolves(s.store.leases[p], s'.store.leases[p])
  {
    if e.Perform? && s.tasks[e.id].peer == p {
      WorkEvolves(s.store, s.now, s.tasks[e.id], e.input);
    } else {
      StepSeenBy(s, e, s', p);
    }
  }

  lemma {:induction false} RecordStep(run: seq<State>, i: nat, p: PeerId)
    requires IsRun(run) && i + 1 < |run|
    requires p in run[i].store.leases && p in run[i + 1].store.leases
    ensures Evolves(run[i].store.leases[p], run[i + 1].store.leases[p])
  {
    ReachableInv(run, i);
    assert StepAt(run, i);
    var e := EventBetween(run[i], run[i + 1]);
    EvolvesStep(run[i], e, run[i + 1], p);
  }

  ghost predicate RetainedThrough(run: seq<State>, i: nat, j: nat, p: PeerId)
    requires i <= j < |run|
  {
    forall k :: i <= k <= j ==> p in run[k].store.leases
  }

  /**
   As long as a record is retained, in every interleaving, it keeps its uuid, its epoch and
   generation never drop, and an epoch keeps its activation id, key and retirement.
   */
  lemma {:induction false} RecordEvolves(run: seq<State>, i: nat, j: nat, p: PeerId)
    requires IsRun(run) && i <= j < |run| && RetainedThrough(run, i, j, p)
    ensures p in run[i].store.leases && p in run[j].store.leases
    ensures Evolves(run[i].store.leases[p], run[j].store.leases[p])
    decreases j
  {
    assert p in run[i].store.leases && p in run[j].store.leases;
    if i < j {
      assert RetainedThrough(run, i, j - 1, p);
      RecordEvolves(run, i, j - 1, p);
      RecordStep(run, j - 1, p);
    }
  }

  // Verification.

  /**
   What a verification answers: never for an epoch that the peer's retained record has retired
   or left behind.
   */
  lemma {:induction false} DeadEpochNotVerified(run: seq<State>, i: nat, j: nat, p: PeerId, r: Request)
    requires IsRun(run) && i <= j < |run| && RetainedThrough(run, i, j, p) && r.Verify?
    requires p in run[i].store.leases
    requires var lease := run[i].store.leases[p]; lease.epoch > r.epoch || (lease.epoch == r.epoch && lease.retired)
    ensures !Verified(run[j].store.leases, p, r)
  {
    RecordEvolves(run, i, j, p);
  }

  // Superseded and deactivated leases.

  /**
   From here on the peer's records and claims carry generations above `g`, or `g`
   itself: retired when `dead` is set.
   */
  ghost predicate Beyond(store: Store, tasks: map<TaskId, Task>, p: PeerId, g: nat, dead: bool) {
    && g <= |store.issued|
    && (p in store.leases ==> BeyondLease(store.leases[p], g, dead))
    && (forall t :: t in tasks && tasks[t].peer == p ==> BeyondStage(tasks[t].stage, g, dead))
  }

  ghost predicate BeyondLease(lease: Lease, g: nat, dead: bool) {
    lease.generation > g || (lease.generation == g && (dead ==> lease.retired))
  }

  ghost predicate BeyondStage(stage: Stage, g: nat, dead: bool) {
    stage.Claimed? && stage.claim.tracked ==>
      stage.claim.generation > g || (stage.claim.generation == g && !dead)
  }

  /** A record with generation `g` or later, retired or superseded as `dead` asks, puts the peer beyond `g`. */
  lemma {:induction false} BeyondHere(s: State, p: PeerId, g: nat, dead: bool)
    requires Inv(s) && p in s.store.leases && BeyondLease(s.store.leases[p], g, dead)
    ensures Beyond(s.store, s.tasks, p, g, dead)
  {
    assert RecordOk(s.store, p);
    forall t | t in s.tasks && s.tasks[t].peer == p ensures BeyondStage(s.tasks[t].stage, g, dead) {
      assert TaskOk(s.store, s.tasks[t]);
    }
  }

  lemma {:induction false} WorkBeyond(store: Store, clock: nat, task: Task, input: Input, g: nat, dead: bool)
    requires StoreOk(store) && TaskOk(store, task) && g <= |store.issued|
    requires task.peer in store.leases ==> BeyondLease(store.leases[task.peer], g, dead)
    requires BeyondStage(task.stage, g, dead)
    ensures var move := Work(store, clock, task, input);
      && (task.peer in StoreOf(store, move).leases ==>
            BeyondLease(StoreOf(store, move).leases[task.peer], g, dead))
      && (move.Continue? ==> BeyondStage(move.stage, g, dead))
  {
  }

  lemma {:induction false} BeyondOwn(s: State, t: TaskId, input: Input, s': State, g: nat, dead: bool)
    requires Inv(s) && Step(s, Perform(t, input)) == Some(s')
    requires Beyond(s.store, s.tasks, s.tasks[t].peer, g, dead)
    ensures Beyond(s'.store, s'.tasks, s.tasks[t].peer, g, dead)
  {
    WorkForeign(s.store, s.now, s.tasks[t], input);
    WorkBeyond(s.store, s.now, s.tasks[t], input, g, dead);
  }

  lemma {:induction false} BeyondStep(s: State, s': State, p: PeerId, g: nat, dead: bool)
    requires Inv(s) && Beyond(s.store, s.tasks, p, g, dead) && Follows(s, s')
    ensures Beyond(s'.store, s'.tasks, p, g, dead)
  {
    var e := EventBetween(s, s');
    if e.Perform? && s.tasks[e.id].peer == p {
      BeyondOwn(s, e.id, e.input, s', g, dead);
    } else {
      StepSeenBy(s, e, s', p);
    }
  }

  lemma {:induction false} BeyondForever(run: seq<State>, i: nat, j: nat, p: PeerId, g: nat, dead: bool)
    requires IsRun(run) && i <= j < |run| && Beyond(run[i].store, run[i].tasks, p, g, dead)
    ensures Beyond(run[j].store, run[j].tasks, p, g, dead)
    decreases j
  {
    if i < j {
      BeyondForever(run, i, j - 1, p, g, dead);
      ReachableInv(run, j - 1);
      assert StepAt(run, j - 1);
      BeyondStep(run[j - 1], run[j], p, g, dead);
    }
  }

  /** A peer's committed generations never go back, even when its record was swept in between. */
  lemma {:induction false} GenerationsNeverDrop(run: seq<State>, i: nat, j: nat, p: PeerId)
    requires IsRun(run) && i <= j < |run| && p in run[i].store.leases && p in run[j].store.leases
    ensures run[i].store.leases[p].generation <= run[j].store.leases[p].generation
  {
    ReachableInv(run, i);
    BeyondHere(run[i], p, run[i].store.leases[p].generation, false);
    BeyondForever(run, i, j, p, run[i].store.leases[p].generation, false);
  }

  /** Every claim for a new lease of the peer is above `g`. */
  ghost predicate NewAbove(store: Store, tasks: map<TaskId, Task>, p: PeerId, g: nat) {
    && g <= |store.issued|
    && (forall t :: t in tasks && tasks[t].peer == p ==> StageAbove(tasks[t].stage, g))
  }

  ghost predicate StageAbove(stage: Stage, g: nat) {
    stage.Claimed? && stage.claim.isNew ==> stage.claim.generation > g
  }

  lemma {:induction false} WorkAbove(store: Store, clock: nat, task: Task, input: Input, g: nat)
    requires g <= |store.issued| && StageAbove(task.stage, g)
    ensures var move := Work(store, clock, task, input);
      move.Continue? ==> StageAbove(move.stage, g)
  {
  }

  lemma {:induction false} AboveStep(s: State, s': State, p: PeerId, g: nat)
    requires Inv(s) && NewAbove(s.store, s.tasks, p, g) && Follows(s, s')
    ensures NewAbove(s'.store, s'.tasks, p, g)
  {
    var e := EventBetween(s, s');
    if e.Perform? && s.tasks[e.id].peer == p {
      WorkForeign(s.store, s.now, s.tasks[e.id], e.input);
      WorkAbove(s.store, s.now, s.tasks[e.id], e.input, g);
    } else {
      StepSeenBy(s, e, s', p);
    }
  }

  lemma {:induction false} AboveForever(run: seq<State>, i: nat, j: nat, p: PeerId, g: nat)
    requires IsRun(run) && i <= j < |run| && NewAbove(run[i].store, run[i].tasks, p, g)
    ensures NewAbove(run[j].store, run[j].tasks, p, g)
    decreases j
  {
    if i < j {
      AboveForever(run, i, j - 1, p, g);
      ReachableInv(run, j - 1);
      assert StepAt(run, j - 1);
      AboveStep(run[j - 1], run[j], p, g);
    }
  }

  lemma {:induction false} AboveHere(s: State, p: PeerId)
    requires Inv(s) && p in s.store.leases
    ensures NewAbove(s.store, s.tasks, p, s.store.leases[p].generation)
  {
    assert RecordOk(s.store, p);
    forall t | t in s.tasks && s.tasks[t].peer == p ensures StageAbove(s.tasks[t].stage, s.store.leases[p].generation) {
      assert TaskOk(s.store, s.tasks[t]);
    }
  }

  /** A claim for a new lease is above every generation its peer has held, swept records included. */
  lemma {:induction false} NewLeaseIsNewer(run: seq<State>, i: nat, j: nat, p: PeerId, t: TaskId)
    requires IsRun(run) && i <= j < |run| && p in run[i].store.leases
    requires t in run[j].tasks && run[j].tasks[t].peer == p && run[j].tasks[t].stage.Claimed?
    requires run[j].tasks[t].stage.claim.isNew
    ensures run[j].tasks[t].stage.claim.generation > run[i].store.leases[p].generation
  {
    ReachableInv(run, i);
    AboveHere(run[i], p);
    AboveForever(run, i, j, p, run[i].store.leases[p].generation);
  }

  /**
   Once generation `g` of a peer is superseded by a later one, or deactivated, no
   request naming `g` is ever accepted again: not for renewal, not for deactivation,
   not after the record is swept and made anew.
   */
  lemma {:induction false} DeadLeaseStaysDead(run: seq<State>, i: nat, j: nat, p: PeerId, g: nat)
    requires IsRun(run) && i <= j < |run| && p in run[i].store.leases
    requires
      var lease := run[i].store.leases[p];
      lease.generation > g || (lease.generation == g && lease.retired)
    ensures forall r: Request :: r.Renew? && r.generation == g ==> !RenewalAccepted(run[j].store.leases, p, r)
    ensures forall r: Request :: r.Deactivate? && r.generation == g ==> !DeactivationAccepted(run[j].store.leases, p, r)
  {
    ReachableInv(run, i);
    BeyondHere(run[i], p, g, true);
    BeyondForever(run, i, j, p, g, true);
  }

  // Legacy registrations.

  lemma {:induction false} V2PeersStep(run: seq<State>, i: nat)
    requires IsRun(run) && i + 1 < |run|
    ensures run[i].store.v2Peers <= run[i + 1].store.v2Peers
  {
    ReachableInv(run, i);
    var s := run[i];
    assert StepAt(run, i);
    var e := EventBetween(s, run[i + 1]);
    if e.Perform? {
      WorkForeign(s.store, s.now, s.tasks[e.id], e.input);
    } else {
      StepSeenBy(s, e, run[i + 1], PeerId(""));
    }
  }

  /** The set of peers that ever activated a profile only grows, up to its cap. */
  lemma {:induction false} V2PeersGrow(run: seq<State>, i: nat, j: nat)
    requires IsRun(run) && i <= j < |run|
    ensures run[i].store.v2Peers <= run[j].store.v2Peers && |run[i].store.v2Peers| <= MAX_V2_PEERS
    decreases j - i
  {
    if i < j {
      V2PeersGrow(run, i + 1, j);
      V2PeersStep(run, i);
    }
    ReachableInv(run, i);
  }

  /** A peer that ever held a lease can never register without one again. */
  lemma {:induction false} NoDowngrade(run: seq<State>, i: nat, j: nat, p: PeerId, r: Request, now: nat)
    requires IsRun(run) && i <= j < |run| && p in run[i].store.leases && r.Register? && r.activationId == []
    ensures CheckRegister(run[j].store, p, r, now) == Finish(run[j].store)
  {
    ReachableInv(run, i);
    assert RecordOk(run[i].store, p);
    V2PeersGrow(run, i, j);
  }
}
