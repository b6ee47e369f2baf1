/** How often an endpoint may move to another address. */
module MediaRelayRebinds {
  import opened Basics
  import opened RelayWire
  import opened MediaRelay
  import opened MediaRelaySafety
  import opened MediaRelayTheorems

  // The fixed window.

  /**
   The last `count` allowed moves fall in the open window, all others before it, and all but
   twelve of those a minute before.
   */
  ghost predicate Accounts(w: Rebinds, allowed: seq<nat>, clock: nat) {
    && w.count <= REBINDS_PER_MINUTE && w.count <= |allowed| && w.started <= clock
    && (forall k :: 0 <= k < |allowed| ==> allowed[k] <= clock)
    && (forall k :: |allowed| - w.count <= k < |allowed| ==> w.started <= allowed[k])
    && (forall k :: 0 <= k < |allowed| - w.count ==> allowed[k] <= w.started)
    && (forall k :: 0 <= k < |allowed| - w.count - REBINDS_PER_MINUTE ==> allowed[k] + MINUTE <= w.started)
  }

  lemma {:induction false} AttemptAccounts(w: Rebinds, allowed: seq<nat>, clock: nat, now: nat)
    requires Accounts(w, allowed, clock) && clock <= now
    ensures var (w', ok) := AllowRebind(w, now);
      Accounts(w', allowed + (if ok then [now] else []), now)
  {
  }

  /** Any twenty-five moves span a minute or more. */
  ghost predicate Spaced(moves: seq<nat>) {
    forall k :: 0 <= k < |moves| - 2 * REBINDS_PER_MINUTE ==> moves[k] + MINUTE <= moves[k + 2 * REBINDS_PER_MINUTE]
  }

  lemma {:induction false} AttemptSpaced(w: Rebinds, allowed: seq<nat>, clock: nat, now: nat)
    requires Accounts(w, allowed, clock) && clock <= now && Spaced(allowed) && AllowRebind(w, now).1
    ensures Spaced(allowed + [now])
  {
    AttemptAccounts(w, allowed, clock, now);
  }

  /** A move is refused only after twelve allowed ones within the last minute. */
  lemma {:induction false} RefusedOnlyWhenFull(w: Rebinds, allowed: seq<nat>, clock: nat, now: nat)
    requires Accounts(w, allowed, clock) && clock <= now && !AllowRebind(w, now).1
    ensures |allowed| >= REBINDS_PER_MINUTE && now < allowed[|allowed| - REBINDS_PER_MINUTE] + MINUTE
  {
  }

  // In runs of the relay.

  function RebindsOf(a: Allocation, role: byte): Rebinds {
    if role == CONTROLLER then a.controllerRebinds else a.targetRebinds
  }

  /** The role is bound to another address than before. */
  predicate Moved(a: Allocation, a': Allocation, role: byte) {
    BindingOf(a, role).Some? && BindingOf(a', role).Some?
        && BindingOf(a, role).value.source != BindingOf(a', role).value.source
  }

  /** The role's window and address after a step: untouched, or one attempt whose success is the move. */
  ghost predicate Attempts(a: Allocation, a': Allocation, role: byte, now: nat) {
    || (RebindsOf(a', role) == RebindsOf(a, role) && !Moved(a, a', role))
    || (RebindsOf(a', role), Moved(a, a', role)) == AllowRebind(RebindsOf(a, role), now)
  }

  lemma {:induction false} BindAttempts(a: Allocation, bound: byte, source: Address, now: nat, role: byte)
    requires role in {CONTROLLER, TARGET} && bound in {CONTROLLER, TARGET}
    ensures Attempts(a, BindRole(a, bound, source, now).0, role, now)
  {
  }

  lemma {:induction false} TreatsAttempts(
    c: Config, e: Event, id: AllocationId, a: Allocation, a': Allocation, role: byte)
    requires Treats(c, e, id, a, a') && role in {CONTROLLER, TARGET}
    ensures Attempts(a, a', role, e.now)
  {
    if a' != a && Binds(c, e, id, a, RoleOf(e)) && a' == BindRole(a, RoleOf(e), e.source, e.now).0 {
      BindAttempts(a, RoleOf(e), e.source, e.now, role);
    }
  }

  /** The times at which the role moved in events `i` to `j - 1`. */
  function MovesBetween(run: Run, i: nat, j: nat, id: AllocationId, role: byte): seq<nat>
    requires i <= j <= |run.events| && |run.states| == |run.events| + 1
    decreases j
  {
    if i == j then []
    else
      MovesBetween(run, i, j - 1, id, role) +
      if id in run.states[j - 1].allocations && id in run.states[j].allocations
         && Moved(run.states[j - 1].allocations[id], run.states[j].allocations[id], role)
      then [run.events[j - 1].now] else []
  }

  /** The allocation came into being with event `i - 1` and has been there since, up to state `j`. */
  ghost predicate Lifetime(run: Run, i: nat, j: nat, id: AllocationId) {
    0 < i <= j <= |run.events| && !Alive(run, i - 1, id) && AliveThroughout(run, i, j, id)
  }

  lemma {:induction false} BornUnmoved(c: Config, relay: Relay, clock: nat, e: Event, id: AllocationId, role: byte)
    requires TableOk(c, relay, clock) && id !in relay.allocations && id in Step(c, relay, e).0.allocations
    requires role in {CONTROLLER, TARGET}
    ensures RebindsOf(Step(c, relay, e).0.allocations[id], role) == Rebinds(e.now, 0)
  {
    if e.Cleanup? {
      CleanShrinks(c, Table(relay.allocations, relay.cleanupOrder), e.now, e.unix, CLEANUP_PER_TICK);
      assert false;
    }
  }

  ghost predicate MovesOk(run: Run, i: nat, j: nat, id: AllocationId, role: byte)
    requires IsRun(run) && i <= j <= |run.events| && Alive(run, j, id)
  {
    var moves := MovesBetween(run, i, j, id, role);
    Accounts(RebindsOf(run.states[j].allocations[id], role), moves, ClockAt(run, j)) && Spaced(moves)
  }

  lemma {:induction false} MovesStart(run: Run, i: nat, id: AllocationId, role: byte)
    requires IsRun(run) && Lifetime(run, i, i, id) && role in {CONTROLLER, TARGET}
    ensures Alive(run, i, id) && MovesOk(run, i, i, id, role)
  {
    assert Alive(run, i, id);
    TableAlwaysOk(run, i - 1);
    assert StepAt(run, i - 1);
    BornUnmoved(run.c, run.states[i - 1], ClockAt(run, i - 1), run.events[i - 1], id, role);
  }

  lemma {:induction false} MovesNext(run: Run, i: nat, j: nat, id: AllocationId, role: byte)
    requires IsRun(run) && i < j <= |run.events| && Alive(run, j - 1, id) && Alive(run, j, id)
    requires role in {CONTROLLER, TARGET} && MovesOk(run, i, j - 1, id, role)
    ensures MovesOk(run, i, j, id, role)
  {
    var a, a', e := run.states[j - 1].allocations[id], run.states[j].allocations[id], run.events[j - 1];
    var moves, w := MovesBetween(run, i, j - 1, id, role), RebindsOf(a, role);
    TreatedAt(run, j - 1, id);
    TreatsAttempts(run.c, e, id, a, a', role);
    assert StepAt(run, j - 1);
    AttemptAccounts(w, moves, ClockAt(run, j - 1), e.now);
    if AllowRebind(w, e.now).1 {
      AttemptSpaced(w, moves, ClockAt(run, j - 1), e.now);
    }
    assert moves + [] == moves;
  }

  /**
   In every run, twenty-five moves of one role within a lifetime of its allocation always span
   a minute or more.
   */
  lemma {:induction false} MovesSpaced(run: Run, i: nat, j: nat, id: AllocationId, role: byte)
    requires IsRun(run) && Lifetime(run, i, j, id) && role in {CONTROLLER, TARGET}
    ensures Alive(run, j, id) && MovesOk(run, i, j, id, role)
    decreases j
  {
    assert Alive(run, j, id);
    if i == j {
      MovesStart(run, i, id, role);
    } else {
      assert Alive(run, j - 1, id);
      MovesSpaced(run, i, j - 1, id, role);
      MovesNext(run, i, j, id, role);
    }
  }

  // Twenty-four within a moment.

  /** The window after `n` attempts at one time. */
  function Tried(w: Rebinds, now: nat, n: nat): Rebinds {
    if n == 0 then w else AllowRebind(Tried(w, now, n - 1), now).0
  }

  /** Of that many attempts at one time, each is allowed. */
  ghost predicate AllPass(w: Rebinds, now: nat, n: nat) {
    forall k: nat :: k < n ==> PassesAfter(w, now, k)
  }

  predicate PassesAfter(w: Rebinds, now: nat, k: nat) {
    AllowRebind(Tried(w, now, k), now).1
  }

  lemma {:induction false} RoomForAll(w: Rebinds, now: nat, n: nat)
    requires w.started <= now < w.started + MINUTE && w.count + n <= REBINDS_PER_MINUTE
    ensures Tried(w, now, n) == w.(count := w.count + n) && AllPass(w, now, n)
  {
    if n > 0 {
      RoomForAll(w, now, n - 1);
    }
  }

  lemma {:induction false} RollsOver(w: Rebinds, now: nat, n: nat)
    requires w.started + MINUTE <= now && 0 < n <= REBINDS_PER_MINUTE
    ensures Tried(w, now, n) == Rebinds(now, n) && AllPass(w, now, n)
  {
    assert Tried(w, now, n - 1) == w || n > 1;
    if n > 1 {
      RollsOver(w, now, n - 1);
    }
  }

  /**
   Because the window is a fixed one, twelve moves at its very end and twelve more a millisecond
   later are all allowed.
   */
  lemma {:induction false} TwentyFourAtOnce(created: nat)
    ensures AllPass(Rebinds(created, 0), created + MINUTE - 1, REBINDS_PER_MINUTE)
    ensures AllPass(Tried(Rebinds(created, 0), created + MINUTE - 1, REBINDS_PER_MINUTE), created + MINUTE,
                    REBINDS_PER_MINUTE)
  {
    RoomForAll(Rebinds(created, 0), created + MINUTE - 1, REBINDS_PER_MINUTE);
    RollsOver(Rebinds(created, REBINDS_PER_MINUTE), created + MINUTE, REBINDS_PER_MINUTE);
  }
}
