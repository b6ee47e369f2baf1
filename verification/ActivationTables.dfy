/**
 The tables of the profile activation registry and what each of its atomic
 accesses does to them. Every function here runs under one of the registry's
 own short locks (`leases`, `bursts`), so it is one indivisible step of the
 protocol in ActivationProtocol. Times are in milliseconds.
 */
module ActivationTables {
  import opened Basics

  const ACTIVATION_ID_BYTES := 16
  const ROUTE_LEASE_BYTES := 32
  const UUID_BYTES := 16
  const PUBLIC_KEY_MAX_BYTES := 512
  const LEASE_TTL := 45_000
  const RECORD_RETENTION := 900_000
  const BURST_WINDOW := 30_000
  const BURST_LIMIT := 12
  const MAX_PEER_LOCKS := 100_000
  const MAX_LEASES := 100_000
  const MAX_V2_PEERS := 100_000
  const MAX_BURST_IDENTITIES := 100_000
  const MAINTENANCE_INTERVAL := 256

  datatype PeerId = PeerId(name: string)

  datatype Route = Native(address: nat) | WebSocket(generation: nat, connectionId: nat)

  datatype Lease = Lease(
    uuid: Bytes, publicKey: Bytes, epoch: nat, activationId: Bytes, routeLease: Bytes,
    generation: nat, route: Option<Route>, retired: bool, updatedAt: nat)

  type Leases = map<PeerId, Lease>

  /** A record that has lost its route also loses its lease token. */
  function Unrouted(lease: Lease, now: nat): Lease {
    lease.(route := None, routeLease := [], updatedAt := now)
  }

  predicate TtlExpired(lease: Lease, now: nat) {
    lease.route.Some? && Elapsed(now, lease.updatedAt) >= LEASE_TTL
  }

  /** `expire_route`: the peer's own route, if it has not been refreshed in time. */
  function ExpireRoute(leases: Leases, peer: PeerId, now: nat): Leases {
    if peer in leases && TtlExpired(leases[peer], now)
    then leases[peer := Unrouted(leases[peer], now)]
    else leases
  }

  function Refreshed(lease: Lease, now: nat): Lease {
    if TtlExpired(lease, now) then Unrouted(lease, now) else lease
  }

  predicate Retained(lease: Lease, now: nat) {
    var kept := Refreshed(lease, now);
    kept.route.Some? || Elapsed(now, kept.updatedAt) < RECORD_RETENTION
  }

  /** The write half of `maintain`: expire every route, drop every record past retention. */
  function Sweep(leases: Leases, now: nat): Leases {
    map peer | peer in leases && Retained(leases[peer], now) :: Refreshed(leases[peer], now)
  }

  predicate MaintenanceDue(calls: nat) {
    calls % MAINTENANCE_INTERVAL == 0
  }

  datatype Disconnection = Disconnection(peer: PeerId, generation: nat, connectionId: nat)

  predicate HoldsRoute(leases: Leases, peer: PeerId, route: Route) {
    peer in leases && !leases[peer].retired && leases[peer].route == Some(route)
  }

  function DisconnectOne(leases: Leases, peer: PeerId, route: Route, now: nat): Leases {
    if HoldsRoute(leases, peer, route) then leases[peer := Unrouted(leases[peer], now)] else leases
  }

  /** `disconnect_websocket_routes_now`: several sockets at once, under no peer lock. */
  function DisconnectSockets(leases: Leases, sockets: seq<Disconnection>, now: nat): Leases
    decreases |sockets|
  {
    if sockets == [] then leases
    else
      var prior := DisconnectSockets(leases, sockets[..|sockets| - 1], now);
      var last := sockets[|sockets| - 1];
      DisconnectOne(prior, last.peer, WebSocket(last.generation, last.connectionId), now)
  }

  /** How many of the sockets were disconnected, counting each as the loop reaches it. */
  function DisconnectCount(leases: Leases, sockets: seq<Disconnection>, now: nat): nat
    decreases |sockets|
  {
    if sockets == [] then 0
    else
      var last := sockets[|sockets| - 1];
      DisconnectCount(leases, sockets[..|sockets| - 1], now) +
      if HoldsRoute(DisconnectSockets(leases, sockets[..|sockets| - 1], now), last.peer,
                    WebSocket(last.generation, last.connectionId))
      then 1 else 0
  }

  // The burst limiter.

  /** The key digest in the limiter's identity is idealised as the key itself. */
  datatype Identity = Identity(peer: PeerId, uuid: Bytes, publicKey: Bytes)

  type Bursts = map<Identity, seq<nat>>

  datatype Verdict = Pass | RateLimited | Capacity

  /** Drop the entries at the front that have left the window ending at `now`. */
  function Pruned(entries: seq<nat>, now: nat): seq<nat> {
    if entries != [] && Elapsed(now, entries[0]) >= BURST_WINDOW
    then Pruned(entries[1..], now)
    else entries
  }

  function PruneAll(bursts: Bursts, now: nat): Bursts {
    map id | id in bursts && Pruned(bursts[id], now) != [] :: Pruned(bursts[id], now)
  }

  predicate PruneDue(bursts: Bursts, calls: nat, id: Identity) {
    MaintenanceDue(calls) || (id !in bursts && |bursts| >= MAX_BURST_IDENTITIES)
  }

  /** `check_burst`; `calls` is the maintenance counter it reads to decide on a full prune. */
  function CheckBurst(bursts: Bursts, calls: nat, id: Identity, now: nat): (Bursts, Verdict) {
    var table := if PruneDue(bursts, calls, id) then PruneAll(bursts, now) else bursts;
    if id !in table && |table| >= MAX_BURST_IDENTITIES then (table, Capacity)
    else
      var entries := Pruned(if id in table then table[id] else [], now);
      if |entries| >= BURST_LIMIT then (table[id := entries], RateLimited)
      else (table[id := entries + [now]], Pass)
  }
}
