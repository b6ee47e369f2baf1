/**
 The registry's own methods, updating its tables in place. Each is proved to do
 exactly what the protocol's step of the same name says; the theorems about
 executions are proved on those steps.
 */
module ActivationRegistry {
  import opened Basics
  import opened ActivationTables

  class Registry {
    var nextGeneration: nat
    var leases: Leases
    var v2Peers: set<PeerId>
    var bursts: Bursts
    var pendingNewLeases: nat
    var maintenanceCalls: nat

    /** Every record has a generation already handed out and belongs to a known peer. */
    ghost predicate Valid()
      reads this
    {
      && |v2Peers| <= MAX_V2_PEERS
      && (forall p :: p in leases ==> 1 <= leases[p].generation < nextGeneration && p in v2Peers)
    }

    constructor ()
      ensures Valid() && nextGeneration == 1 && leases == map[] && v2Peers == {} && bursts == map[]
      ensures pendingNewLeases == 0 && maintenanceCalls == 0
    {
      nextGeneration, leases, v2Peers, bursts := 1, map[], {}, map[];
      pendingNewLeases, maintenanceCalls := 0, 0;
    }

    /** A generation above that of every record there is. */
    method TakeGeneration() returns (generation: nat)
      requires Valid()
      modifies this`nextGeneration
      ensures Valid() && forall p :: p in leases ==> leases[p].generation < generation
      ensures generation == old(nextGeneration) && nextGeneration == generation + 1
    {
      generation := nextGeneration;
      nextGeneration := nextGeneration + 1;
    }

    /** Counts itself first and takes that back when the table turns out to be full. */
    method ReserveLeaseCapacity() returns (ok: bool)
      modifies this`pendingNewLeases
      ensures ok <==> |leases| + old(pendingNewLeases) < MAX_LEASES
      ensures pendingNewLeases == old(pendingNewLeases) + if ok then 1 else 0
    {
      var active := |leases|;
      var pending := pendingNewLeases;
      pendingNewLeases := pendingNewLeases + 1;
      if active + pending >= MAX_LEASES {
        pendingNewLeases := pendingNewLeases - 1;
        return false;
      }
      return true;
    }

    /** Afterwards the peer's route, if it has one, is within its time; no other record has changed. */
    method ExpireOwnRoute(peer: PeerId, now: nat)
      requires Valid()
      modifies this`leases
      ensures Valid() && leases.Keys == old(leases.Keys)
      ensures leases == ExpireRoute(old(leases), peer, now)
      ensures peer in leases ==> !TtlExpired(leases[peer], now)
      ensures peer in leases && leases[peer].route.Some? ==> leases[peer] == old(leases[peer])
      ensures forall p :: p in leases && p != peer ==> leases[p] == old(leases[p])
    {
      if peer in leases && leases[peer].route.Some? && Elapsed(now, leases[peer].updatedAt) >= LEASE_TTL {
        leases := leases[peer := leases[peer].(route := None, routeLease := [], updatedAt := now)];
      }
    }

    /** Every 256th call sweeps the whole table. */
    method Maintain(now: nat)
      requires Valid()
      modifies this`leases, this`maintenanceCalls
      ensures Valid() && maintenanceCalls == old(maintenanceCalls) + 1
      ensures leases == if MaintenanceDue(old(maintenanceCalls)) then Sweep(old(leases), now) else old(leases)
    {
      var call := maintenanceCalls;
      maintenanceCalls := maintenanceCalls + 1;
      if call % MAINTENANCE_INTERVAL != 0 {
        return;
      }
      var all := leases;
      var kept: Leases := map[];
      var todo := all.Keys;
      while todo != {}
        invariant todo <= all.Keys
        invariant kept == map p | p in all && p !in todo && Retained(all[p], now) :: Refreshed(all[p], now)
        decreases |todo|
      {
        var peer :| peer in todo;
        var lease := all[peer];
        if lease.route.Some? && Elapsed(now, lease.updatedAt) >= LEASE_TTL {
          lease := lease.(route := None, routeLease := [], updatedAt := now);
        }
        if lease.route.Some? || Elapsed(now, lease.updatedAt) < RECORD_RETENTION {
          kept := kept[peer := lease];
        }
        todo := todo - {peer};
      }
      leases := kept;
    }

    /** Gives up at once when the table is being written; otherwise takes the sockets one by one. */
    method DisconnectWebsocketRoutesNow(
      sockets: seq<Disconnection>, now: nat, contended: bool) returns (disconnected: nat)
      modifies this`leases
      ensures contended ==> disconnected == 0 && leases == old(leases)
      ensures !contended ==> leases == DisconnectSockets(old(leases), sockets, now)
      ensures !contended ==> disconnected == DisconnectCount(old(leases), sockets, now)
    {
      disconnected := 0;
      if contended {
        return;
      }
      for i := 0 to |sockets|
        invariant leases == DisconnectSockets(old(leases), sockets[..i], now)
        invariant disconnected == DisconnectCount(old(leases), sockets[..i], now)
      {
        assert sockets[..i + 1][..i] == sockets[..i];
        var peer := sockets[i].peer;
        var route := WebSocket(sockets[i].generation, sockets[i].connectionId);
        if peer in leases && !leases[peer].retired && leases[peer].route == Some(route) {
          leases := leases[peer := leases[peer].(route := None, routeLease := [], updatedAt := now)];
          disconnected := disconnected + 1;
        }
      }
      assert sockets[..|sockets|] == sockets;
    }

    method RememberV2Peer(peer: PeerId) returns (ok: bool)
      requires Valid()
      modifies this`v2Peers
      ensures Valid()
      ensures ok <==> peer in old(v2Peers) || |old(v2Peers)| < MAX_V2_PEERS
      ensures v2Peers == if ok then old(v2Peers) + {peer} else old(v2Peers)
    {
      if peer in v2Peers {
        assert v2Peers + {peer} == v2Peers;
        return true;
      }
      if |v2Peers| >= MAX_V2_PEERS {
        return false;
      }
      v2Peers := v2Peers + {peer};
      return true;
    }

    /** `check_burst`: prune, look, and on success remember this call. */
    method TryBurst(id: Identity, now: nat) returns (verdict: Verdict)
      modifies this`bursts
      ensures (bursts, verdict) == CheckBurst(old(bursts), maintenanceCalls, id, now)
    {
      if maintenanceCalls % MAINTENANCE_INTERVAL == 0 || (id !in bursts && |bursts| >= MAX_BURST_IDENTITIES) {
        PruneTable(now);
      }
      if id !in bursts && |bursts| >= MAX_BURST_IDENTITIES {
        return Capacity;
      }
      var entries := PruneEntries(if id in bursts then bursts[id] else [], now);
      if |entries| >= BURST_LIMIT {
        bursts := bursts[id := entries];
        return RateLimited;
      }
      bursts := bursts[id := entries + [now]];
      return Pass;
    }

    method PruneEntries(entries: seq<nat>, now: nat) returns (kept: seq<nat>)
      ensures kept == Pruned(entries, now)
    {
      kept := entries;
      while kept != [] && Elapsed(now, kept[0]) >= BURST_WINDOW
        invariant Pruned(kept, now) == Pruned(entries, now)
        decreases |kept|
      {
        kept := kept[1..];
      }
    }

    method PruneTable(now: nat)
      modifies this`bursts
      ensures bursts == PruneAll(old(bursts), now)
    {
      var all := bursts;
      var kept: Bursts := map[];
      var todo := all.Keys;
      while todo != {}
        invariant todo <= all.Keys && bursts == all
        invariant kept == map id | id in all && id !in todo && Pruned(all[id], now) != [] :: Pruned(all[id], now)
        decreases |todo|
      {
        var id :| id in todo;
        var entries := PruneEntries(all[id], now);
        if entries != [] {
          kept := kept[id := entries];
        }
        todo := todo - {id};
      }
      bursts := kept;
    }
  }
}
