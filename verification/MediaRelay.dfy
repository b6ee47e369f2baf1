/**
 The AKR1 UDP media relay: what one datagram or one cleanup tick does to its tables.
 Signature checking, the cookie MAC and the digest are parameters; `now` is a
 monotone clock in milliseconds, `unix` the wall clock in seconds.
 */
module MediaRelay {
  import opened Basics
  import opened Texts
  import opened RelayWire
  import opened RelayGrants
  import opened ReplayWindows
  import opened TokenBuckets

  const CLEANUP_PER_TICK := 64
  const COOKIE_EPOCH_SECONDS := 10
  const REBINDS_PER_MINUTE := 12
  const MINUTE := 60_000
  const MAX_IP_BUCKETS := 4_096

  datatype Config = Config(
    relayServer: Text, udpPort: nat, maxAllocations: nat, halfBindTtl: nat, idleTtl: nat,
    perIpPackets: nat, perIpBytes: nat, globalPackets: nat, globalBytes: nat,
    mac: Bytes -> Bytes, open: Bytes -> Option<Grant>, digest: Text -> Bytes)

  datatype Binding = Binding(source: Address, replay: Window, limiter: Bucket)

  datatype Rebinds = Rebinds(started: nat, count: nat)

  datatype Allocation = Allocation(
    sessionId: nat, terms: GrantInvariant, created: nat, lastActivity: nat,
    controller: Option<Binding>, target: Option<Binding>,
    controllerRebinds: Rebinds, targetRebinds: Rebinds)

  datatype TrafficLimit = TrafficLimit(packets: Bucket, bytes: Bucket, lastSeen: nat)

  type Allocations = map<AllocationId, Allocation>

  datatype Relay = Relay(
    allocations: Allocations, cleanupOrder: seq<AllocationId>,
    perIp: map<Ip, TrafficLimit>, global: TrafficLimit)

  datatype Outgoing = Outgoing(target: Address, bytes: Bytes)

  datatype Event =
    | Datagram(source: Address, bytes: Bytes, now: nat, unix: nat)
    | Cleanup(now: nat, unix: nat)

  function NewTraffic(packets: nat, bytes: nat, now: nat): TrafficLimit {
    TrafficLimit(NewBucket(packets, Max(packets, 1), now), NewBucket(bytes, Max(bytes, 1), now), now)
  }

  function Start(c: Config, now: nat): Relay {
    Relay(map[], [], map[], NewTraffic(c.globalPackets, c.globalBytes, now))
  }

  // Per-source limits.

  function AllowTraffic(t: TrafficLimit, size: nat, now: nat): (TrafficLimit, bool) {
    var packets := Allow(t.packets, 1, now);
    if !packets.1 then (t.(packets := packets.0, lastSeen := now), false)
    else
      var bytes := Allow(t.bytes, size, now);
      (TrafficLimit(packets.0, bytes.0, now), bytes.1)
  }

  function AllowSource(c: Config, relay: Relay, ip: Ip, size: nat, now: nat): (Relay, bool) {
    var overall := AllowTraffic(relay.global, size, now);
    var relay1 := relay.(global := overall.0);
    if !overall.1 || (ip !in relay.perIp && |relay.perIp| >= MAX_IP_BUCKETS) then (relay1, false)
    else
      var limit := if ip in relay.perIp then relay.perIp[ip] else NewTraffic(c.perIpPackets, c.perIpBytes, now);
      var own := AllowTraffic(limit, size, now);
      (relay1.(perIp := relay.perIp[ip := own.0]), own.1)
  }

  // Hello.

  function Cookie(c: Config, source: Address, h: Header, nonce: Bytes, epoch: nat): Bytes {
    var tag := c.mac(CookieBytes(source, h, nonce, epoch));
    if |tag| < 8 then tag else tag[..8]
  }

  function HandleHello(c: Config, source: Address, packet: Bytes, h: Header, unix: nat): Option<Outgoing> {
    if |packet| != HELLO_BYTES || !AllZero(packet[48..]) then None
    else
      var nonce := packet[HEADER_BYTES..48];
      Some(Outgoing(source, Encode(h, HELLO_REPLY) + nonce + Cookie(c, source, h, nonce, unix / COOKIE_EPOCH_SECONDS)))
  }

  // Bind.

  predicate CookieValid(c: Config, source: Address, packet: Bytes, h: Header, unix: nat)
    requires |packet| >= BIND_PREFIX_BYTES
  {
    var epoch := unix / COOKIE_EPOCH_SECONDS;
    var nonce, received := packet[32..48], packet[48..56];
    || Cookie(c, source, h, nonce, epoch) == received
    || Cookie(c, source, h, nonce, if epoch == 0 then 0 else epoch - 1) == received
  }

  /** The terms a bind datagram proves: fresh cookie, good signature, grant valid for this role here. */
  function BindTerms(c: Config, source: Address, packet: Bytes, h: Header, unix: nat): Option<GrantInvariant> {
    if |packet| < BIND_PREFIX_BYTES then None
    else
      var length := packet[56] as nat + 256 * packet[57] as nat;
      if length == 0 || length > MAX_AUTHORIZATION_BYTES || |packet| != BIND_PREFIX_BYTES + length then None
      else if !CookieValid(c, source, packet, h, unix) then None
      else
        var grant := c.open(packet[BIND_PREFIX_BYTES..]);
        if grant.None? then None
        else
          var validation := Validated(grant.value, h, c.relayServer, c.udpPort, unix, c.digest);
          if validation.Accepted? then Some(validation.terms) else None
  }

  function NewAllocation(sessionId: nat, terms: GrantInvariant, now: nat): Allocation {
    Allocation(sessionId, terms, now, now, None, None, Rebinds(now, 0), Rebinds(now, 0))
  }

  function BindingOf(a: Allocation, role: byte): Option<Binding> {
    if role == CONTROLLER then a.controller else a.target
  }

  function Opposite(role: byte): byte {
    if role == CONTROLLER then TARGET else CONTROLLER
  }

  function Bound(a: Allocation, role: byte, b: Binding): Allocation {
    if role == CONTROLLER then a.(controller := Some(b)) else a.(target := Some(b))
  }

  function AllowRebind(w: Rebinds, now: nat): (Rebinds, bool) {
    var current := if Elapsed(now, w.started) >= MINUTE then Rebinds(now, 0) else w;
    if current.count >= REBINDS_PER_MINUTE then (current, false)
    else (current.(count := current.count + 1), true)
  }

  /** The role's rebind window after one attempt, and whether it was allowed. */
  function TryRebind(a: Allocation, role: byte, now: nat): (Allocation, bool) {
    if role == CONTROLLER then
      var r := AllowRebind(a.controllerRebinds, now);
      (a.(controllerRebinds := r.0), r.1)
    else
      var r := AllowRebind(a.targetRebinds, now);
      (a.(targetRebinds := r.0), r.1)
  }

  /** Bind the address to the role; None when the rebind budget is used up. */
  function BindRole(a: Allocation, role: byte, source: Address, now: nat): (Allocation, bool) {
    var existing := BindingOf(a, role);
    if existing.None? then
      (Bound(a, role, Binding(source, EMPTY, RoleBucket(a.terms.maxBitrateKbps, now))).(lastActivity := now), true)
    else if existing.value.source == source then (a.(lastActivity := now), true)
    else
      var r := TryRebind(a, role, now);
      if !r.1 then (r.0, false)
      else (Bound(r.0, role, existing.value.(source := source)).(lastActivity := now), true)
  }

  function HandleBind(c: Config, relay: Relay, source: Address, packet: Bytes, h: Header, now: nat, unix: nat)
    : (Relay, Option<Outgoing>)
  {
    var terms := BindTerms(c, source, packet, h, unix);
    var isNew := h.allocation !in relay.allocations;
    if terms.None? || (isNew && |relay.allocations| >= c.maxAllocations) then (relay, None)
    else
      var current := if isNew then NewAllocation(h.sessionId, terms.value, now) else relay.allocations[h.allocation];
      if current.sessionId != h.sessionId || current.terms != terms.value then (relay, None)
      else
        var bound := BindRole(current, h.role, source, now);
        (relay.(allocations := relay.allocations[h.allocation := bound.0],
                cleanupOrder := if isNew then relay.cleanupOrder + [h.allocation] else relay.cleanupOrder),
         if bound.1 then Some(Outgoing(source, Encode(h, BIND_REPLY))) else None)
  }

  // Media.

  predicate Expired(c: Config, a: Allocation, now: nat, unix: nat) {
    || a.terms.expiresAt <= unix
    || Elapsed(now, a.created) > 1000 * MAX_GRANT_TTL_SECONDS
    || Elapsed(now, a.lastActivity) > c.idleTtl
    || ((a.controller.None? || a.target.None?) && Elapsed(now, a.created) > c.halfBindTtl)
  }

  /** The sequence number of a media datagram its allocation may carry at all. */
  function Carriable(
    c: Config, a: Allocation, source: Address, packet: Bytes, h: Header, now: nat, unix: nat): Option<nat>
    requires |packet| >= HEADER_BYTES
  {
    if a.sessionId != h.sessionId || Expired(c, a, now, unix) || |packet| > a.terms.maxDatagram
       || a.controller.None? || a.target.None?
    then None
    else
      var sequence := MediaSequence(packet[HEADER_BYTES..], h.role, h.sessionId);
      if sequence.None? || BindingOf(a, h.role).value.source != source then None else sequence
  }

  /** Spend the sequence number, then the credit; only then is the datagram forwarded. */
  function Spend(a: Allocation, role: byte, sequence: nat, size: nat, now: nat): (Allocation, bool)
    requires BindingOf(a, role).Some?
  {
    var binding := BindingOf(a, role).value;
    var replay := Accept(binding.replay, sequence);
    if !replay.1 then (a, false)
    else
      var limiter := Allow(binding.limiter, size, now);
      var a1 := Bound(a, role, binding.(replay := replay.0, limiter := limiter.0));
      if limiter.1 then (a1.(lastActivity := now), true) else (a1, false)
  }

  function HandleMedia(c: Config, relay: Relay, source: Address, packet: Bytes, h: Header, now: nat, unix: nat)
    : (Relay, Option<Outgoing>)
    requires |packet| >= HEADER_BYTES
  {
    if h.allocation !in relay.allocations then (relay, None)
    else
      var a := relay.allocations[h.allocation];
      var sequence := Carriable(c, a, source, packet, h, now, unix);
      if sequence.None? then (relay, None)
      else
        var spent := Spend(a, h.role, sequence.value, |packet|, now);
        (relay.(allocations := relay.allocations[h.allocation := spent.0]),
         if spent.1 then Some(Outgoing(BindingOf(a, Opposite(h.role)).value.source, packet[HEADER_BYTES..])) else None)
  }

  function Handle(
    c: Config, relay: Relay, source: Address, packet: Bytes, now: nat, unix: nat): (Relay, Option<Outgoing>) {
    var header := Parse(packet);
    if header.None? then (relay, None)
    else
      var admitted := AllowSource(c, relay, source.ip, |packet|, now);
      if !admitted.1 then (admitted.0, None)
      else
        var h := header.value;
        if h.kind == HELLO then (admitted.0, HandleHello(c, source, packet, h, unix))
        else if h.kind == BIND then HandleBind(c, admitted.0, source, packet, h, now, unix)
        else HandleMedia(c, admitted.0, source, packet, h, now, unix)
  }

  // Cleanup.

  /** The table together with the queue that schedules its cleanup. */
  datatype Table = Table(allocations: Allocations, order: seq<AllocationId>)

  /** Look at the front entry, if any: drop it if it expired, else move it to the back. */
  function CleanOne(c: Config, t: Table, now: nat, unix: nat): Table {
    if t.order == [] then t
    else
      var id := t.order[0];
      if id !in t.allocations || Expired(c, t.allocations[id], now, unix)
      then Table(Without(t.allocations, id), t.order[1..])
      else Table(t.allocations, t.order[1..] + [id])
  }

  function Clean(c: Config, t: Table, now: nat, unix: nat, rounds: nat): Table {
    if rounds == 0 then t else CleanOne(c, Clean(c, t, now, unix, rounds - 1), now, unix)
  }

  function RecentTraffic(perIp: map<Ip, TrafficLimit>, now: nat): map<Ip, TrafficLimit> {
    map ip | ip in perIp && Elapsed(now, perIp[ip].lastSeen) <= MINUTE :: perIp[ip]
  }

  function HandleCleanup(c: Config, relay: Relay, now: nat, unix: nat): Relay {
    var cleaned := Clean(c, Table(relay.allocations, relay.cleanupOrder), now, unix, CLEANUP_PER_TICK);
    Relay(cleaned.allocations, cleaned.order, RecentTraffic(relay.perIp, now), relay.global)
  }

  function Step(c: Config, relay: Relay, e: Event): (Relay, Option<Outgoing>) {
    match e
    case Datagram(source, bytes, now, unix) => Handle(c, relay, source, bytes, now, unix)
    case Cleanup(now, unix) => (HandleCleanup(c, relay, now, unix), None)
  }
}
