/** How long the relay keeps allocations and what it knows of their sources. */
module MediaRelayLifetimes {
  import opened Basics
  import opened RelayWire
  import opened RelayGrants
  import opened MediaRelay
  import opened MediaRelaySafety
  import opened MediaRelayTheorems
  import opened MediaRelayForwarding

  /** The datagram is a bind or media for this allocation that got an answer or was passed on. */
  ghost predicate Served(c: Config, relay: Relay, e: Event, id: AllocationId) {
    && e.Datagram? && Parse(e.bytes).Some? && Parse(e.bytes).value.kind in {BIND, MEDIA}
    && Parse(e.bytes).value.allocation == id && Step(c, relay, e).1.Some?
  }

  /** Its idle time is started anew exactly when it is served. */
  ghost predicate Refreshes(c: Config, relay: Relay, e: Event, id: AllocationId) {
    && id in relay.allocations && id in Step(c, relay, e).0.allocations
    && Step(c, relay, e).0.allocations[id].lastActivity ==
       if Served(c, relay, e, id) then e.now else relay.allocations[id].lastActivity
  }

  lemma {:induction false} BindRefreshes(c: Config, relay: Relay, e: Event, h: Header, id: AllocationId)
    requires id in relay.allocations && e.Datagram? && Parse(e.bytes) == Some(h) && h.kind == BIND
    ensures Refreshes(c, relay, e, id)
  {
    var admitted := AllowSource(c, relay, e.source.ip, |e.bytes|, e.now);
    assert admitted.0.allocations == relay.allocations;
  }

  lemma {:induction false} MediaRefreshes(c: Config, relay: Relay, e: Event, h: Header, id: AllocationId)
    requires id in relay.allocations && e.Datagram? && Parse(e.bytes) == Some(h) && h.kind == MEDIA
    ensures Refreshes(c, relay, e, id)
  {
    var admitted := AllowSource(c, relay, e.source.ip, |e.bytes|, e.now);
    assert admitted.0.allocations == relay.allocations;
  }

  /** An allocation's idle time starts anew exactly with the datagrams it is served by. */
  lemma {:induction false} ActivityExactly(c: Config, relay: Relay, clock: nat, e: Event, id: AllocationId)
    requires TableOk(c, relay, clock) && id in relay.allocations && id in Step(c, relay, e).0.allocations
    ensures Refreshes(c, relay, e, id)
  {
    if e.Cleanup? {
      CleanShrinks(c, Table(relay.allocations, relay.cleanupOrder), e.now, e.unix, CLEANUP_PER_TICK);
    } else if Parse(e.bytes).Some? && Parse(e.bytes).value.kind == BIND {
      BindRefreshes(c, relay, e, Parse(e.bytes).value, id);
    } else if Parse(e.bytes).Some? && Parse(e.bytes).value.kind == MEDIA {
      MediaRefreshes(c, relay, e, Parse(e.bytes).value, id);
    }
  }

  lemma {:induction false} CleanOneSpares(c: Config, t: Table, now: nat, unix: nat, id: AllocationId)
    requires id in t.allocations && InTime(c, t.allocations[id], now, unix)
    ensures var t' := CleanOne(c, t, now, unix); id in t'.allocations && t'.allocations[id] == t.allocations[id]
  {
    ExpiredExactly(c, t.allocations[id], now, unix);
  }

  lemma {:induction false} CleanSpares(c: Config, t: Table, now: nat, unix: nat, rounds: nat, id: AllocationId)
    requires id in t.allocations && InTime(c, t.allocations[id], now, unix)
    ensures var t' := Clean(c, t, now, unix, rounds); id in t'.allocations && t'.allocations[id] == t.allocations[id]
  {
    if rounds > 0 {
      CleanSpares(c, t, now, unix, rounds - 1, id);
      CleanOneSpares(c, Clean(c, t, now, unix, rounds - 1), now, unix, id);
    }
  }

  lemma {:induction false} DatagramSpares(c: Config, relay: Relay, e: Event, id: AllocationId)
    requires e.Datagram? && id in relay.allocations
    ensures id in Step(c, relay, e).0.allocations
  {
    var admitted := AllowSource(c, relay, e.source.ip, |e.bytes|, e.now);
    assert admitted.0.allocations == relay.allocations;
  }

  /** At each tick from `i` on, the allocation, if there still, is in time. */
  ghost predicate InTimeThrough(run: Run, i: nat, j: nat, id: AllocationId)
    requires j <= |run.events|
  {
    forall k: nat :: i <= k < j && run.events[k].Cleanup? && Alive(run, k, id) ==>
      InTime(run.c, run.states[k].allocations[id], run.events[k].now, run.events[k].unix)
  }

  lemma {:induction false} SparedAt(run: Run, k: nat, id: AllocationId)
    requires IsRun(run) && k < |run.events| && Alive(run, k, id) && InTimeThrough(run, k, k + 1, id)
    ensures Alive(run, k + 1, id)
  {
    assert StepAt(run, k);
    var relay, e := run.states[k], run.events[k];
    if e.Cleanup? {
      CleanSpares(run.c, Table(relay.allocations, relay.cleanupOrder), e.now, e.unix, CLEANUP_PER_TICK, id);
    } else {
      DatagramSpares(run.c, relay, e, id);
    }
  }

  /** An allocation that is in time at every cleanup tick is never dropped. */
  lemma {:induction false} InTimeIsKept(run: Run, i: nat, j: nat, id: AllocationId)
    requires IsRun(run) && i <= j <= |run.events| && Alive(run, i, id) && InTimeThrough(run, i, j, id)
    ensures AliveThroughout(run, i, j, id)
    decreases j
  {
    if i < j {
      InTimeIsKept(run, i, j - 1, id);
      assert Alive(run, j - 1, id);
      SparedAt(run, j - 1, id);
    }
  }

  /** At each tick from `i` on, the allocation, if there still, is out of time. */
  ghost predicate OutThrough(run: Run, i: nat, j: nat, id: AllocationId)
    requires j <= |run.events|
  {
    forall k: nat :: i <= k < j && run.events[k].Cleanup? && Alive(run, k, id) ==>
      !InTime(run.c, run.states[k].allocations[id], run.events[k].now, run.events[k].unix)
  }

  lemma {:induction false} OutAdvances(run: Run, k: nat, id: AllocationId, position: nat)
    requires IsRun(run) && k < |run.events| && Alive(run, k, id) && Alive(run, k + 1, id)
    requires StandsAt(run.states[k].cleanupOrder, position, id) && OutThrough(run, k, k + 1, id)
    ensures run.events[k].Cleanup? ==> position >= 64
    ensures StandsAt(run.states[k + 1].cleanupOrder,
                     if run.events[k].Cleanup? then position - CLEANUP_PER_TICK else position, id)
  {
    TableAlwaysOk(run, k);
    assert StepAt(run, k);
    var relay, e := run.states[k], run.events[k];
    if e.Cleanup? {
      ExpiredExactly(run.c, relay.allocations[id], e.now, e.unix);
      CleanAdvances(run.c, Table(relay.allocations, relay.cleanupOrder), e.now, e.unix, CLEANUP_PER_TICK, id, position);
    } else {
      DatagramKeepsPlace(run.c, relay, e, position, id);
    }
  }

  lemma {:induction false} OutAfterTicks(run: Run, i: nat, j: nat, id: AllocationId, position: nat)
    requires IsRun(run) && j <= |run.events| && AliveThroughout(run, i, j, id) && OutThrough(run, i, j, id)
    requires Alive(run, i, id) && StandsAt(run.states[i].cleanupOrder, position, id)
    ensures CLEANUP_PER_TICK * Ticks(run.events, i, j) <= position
    ensures StandsAt(run.states[j].cleanupOrder, position - CLEANUP_PER_TICK * Ticks(run.events, i, j), id)
    decreases j
  {
    if i < j {
      assert Alive(run, j, id) && Alive(run, j - 1, id);
      OutAfterTicks(run, i, j - 1, id, position);
      OutAdvances(run, j - 1, id, position - CLEANUP_PER_TICK * Ticks(run.events, i, j - 1));
    }
  }

  /**
   One that is out of time for whatever reason, idle or half bound for too long among them, is dropped
   within position / 64 + 1 ticks, unless it comes back into time.
   */
  lemma {:induction false} OutOfTimeIsRemoved(run: Run, i: nat, j: nat, id: AllocationId, position: nat)
    requires IsRun(run) && i <= j <= |run.events| && Alive(run, i, id) && OutThrough(run, i, j, id)
    requires StandsAt(run.states[i].cleanupOrder, position, id)
    requires Ticks(run.events, i, j) == position / 64 + 1
    ensures exists k :: i < k <= j && !Alive(run, k, id)
  {
    if AliveThroughout(run, i, j, id) {
      OutAfterTicks(run, i, j, id, position);
      assert false;
    }
  }

  /**
   An allocation past its absolute end, standing at `position` in the cleanup queue, is
   removed within position / 64 + 1 cleanup ticks, whatever binds arrive meanwhile.
   */
  lemma {:induction false} ExpiredIsRemoved(run: Run, i: nat, j: nat, id: AllocationId, position: nat)
    requires IsRun(run) && i <= j <= |run.events| && Alive(run, i, id)
    requires StandsAt(run.states[i].cleanupOrder, position, id)
    requires forall k :: i <= k < j ==> Over(run.states[i].allocations[id], run.events[k].now, run.events[k].unix)
    requires Ticks(run.events, i, j) == position / 64 + 1
    ensures exists k :: i < k <= j && !Alive(run, k, id)
  {
    if AliveThroughout(run, i, j, id) {
      forall k: nat | i <= k < j && run.events[k].Cleanup? && Alive(run, k, id)
        ensures !InTime(run.c, run.states[k].allocations[id], run.events[k].now, run.events[k].unix)
      {
        assert AliveThroughout(run, i, k, id);
        TermsFixed(run, i, k, id);
      }
      OutOfTimeIsRemoved(run, i, j, id, position);
    }
  }

  /** For one that is over 300 seconds old nothing need be known of the wall clock. */
  lemma {:induction false} AgedIsRemoved(run: Run, i: nat, j: nat, id: AllocationId, position: nat)
    requires IsRun(run) && i <= j <= |run.events| && Alive(run, i, id)
    requires StandsAt(run.states[i].cleanupOrder, position, id)
    requires Elapsed(ClockAt(run, i), run.states[i].allocations[id].created) > 1000 * MAX_GRANT_TTL_SECONDS
    requires Ticks(run.events, i, j) == position / 64 + 1
    ensures exists k :: i < k <= j && !Alive(run, k, id)
  {
    forall k | i <= k < j
      ensures Over(run.states[i].allocations[id], run.events[k].now, run.events[k].unix)
    {
      ClockGrows(run, i, k + 1);
    }
    ExpiredIsRemoved(run, i, j, id, position);
  }

  // Sources.

  /** A tick forgets a source's limits exactly when it has not been heard for over a minute, and changes no other. */
  lemma {:induction false} SourcesKept(c: Config, relay: Relay, e: Event, ip: Ip)
    requires e.Cleanup?
    ensures var after := Step(c, relay, e).0;
      && (ip in after.perIp <==> ip in relay.perIp && e.now <= relay.perIp[ip].lastSeen + 60_000)
      && (ip in after.perIp ==> after.perIp[ip] == relay.perIp[ip]) && after.global == relay.global
  {
  }

  /** A datagram that parses is counted against its source at once, if the relay as a whole can take it. */
  lemma {:induction false} SourceHeard(c: Config, relay: Relay, e: Event)
    requires e.Datagram? && Parse(e.bytes).Some? && Passes(c, relay, e)
    ensures var after := Step(c, relay, e).0.perIp;
      && e.source.ip in after && after[e.source.ip].lastSeen == e.now
      && forall ip :: ip != e.source.ip ==>
          (ip in after <==> ip in relay.perIp) && (ip in after ==> after[ip] == relay.perIp[ip])
  {
  }
}
