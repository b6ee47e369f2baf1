/** What the relay answers to hellos and binds, said of the bytes. */
module MediaRelayAnswers {
  import opened Basics
  import opened Texts
  import opened RelayWire
  import opened RelayGrants
  import opened TokenBuckets
  import opened MediaRelay
  import opened MediaRelayTheorems
  import opened MediaRelayForwarding

  // The relay's own limits.

  ghost predicate Covers(t: TrafficLimit, size: nat, now: nat) {
    1.0 <= Credit(t.packets, now) && size as real <= Credit(t.bytes, now)
  }

  /**
   A datagram passes exactly when the whole relay's credit covers it and its source's does: what is left
   of it, or for a source not yet known, a full second's worth, as long as sources still fit.
   */
  lemma {:induction false} PassesExactly(c: Config, relay: Relay, e: Event)
    requires e.Datagram?
    ensures Passes(c, relay, e) <==>
      && Covers(relay.global, |e.bytes|, e.now)
      && if e.source.ip in relay.perIp then Covers(relay.perIp[e.source.ip], |e.bytes|, e.now)
         else |relay.perIp| < 4096 && |e.bytes| <= if c.perIpBytes == 0 then 1 else c.perIpBytes
  {
    NewBucketSound(c.perIpPackets, Max(c.perIpPackets, 1), e.now);
    NewBucketSound(c.perIpBytes, Max(c.perIpBytes, 1), e.now);
  }

  // Hello.

  /** The first eight bytes of the MAC over the address, the header's fields, the nonce and the epoch. */
  function CookieFor(c: Config, source: Address, h: Header, nonce: Bytes, epoch: nat): Bytes {
    var tag := c.mac(CookieBytes(source, h, nonce, epoch));
    if |tag| <= 8 then tag else tag[..8]
  }

  lemma {:induction false} CookieIs(c: Config, source: Address, h: Header, packet: Bytes, unix: nat)
    ensures |packet| == 56 ==>
      (AllZero(packet[48..]) <==> packet[48..] == [0, 0, 0, 0, 0, 0, 0, 0])
    ensures forall nonce, epoch :: Cookie(c, source, h, nonce, epoch) == CookieFor(c, source, h, nonce, epoch)
  {
    forall nonce, epoch ensures Cookie(c, source, h, nonce, epoch) == CookieFor(c, source, h, nonce, epoch) {
      var tag := c.mac(CookieBytes(source, h, nonce, epoch));
      assert |tag| == 8 ==> tag[..8] == tag;
    }
    if |packet| == 56 && AllZero(packet[48..]) {
      assert packet[48..] == [0, 0, 0, 0, 0, 0, 0, 0];
    }
  }

  lemma {:induction false} ReplyBytes(h: Header, kind: byte)
    ensures Encode(h, kind) == AKR1 + [1, kind, h.role, 0] + ToLe(h.sessionId, 8) + h.allocation.bytes
  {
  }

  /**
   A hello that passes is answered exactly when it is 56 bytes with zeros where the cookie goes,
   and changes nothing.
   */
  lemma {:induction false} HelloExactly(c: Config, relay: Relay, e: Event, h: Header)
    requires e.Datagram? && Parse(e.bytes) == Some(h) && h.kind == HELLO && Passes(c, relay, e)
    ensures var (relay', out) := Step(c, relay, e);
      && relay'.allocations == relay.allocations && relay'.cleanupOrder == relay.cleanupOrder
      && out == if |e.bytes| == 56 && e.bytes[48..] == [0, 0, 0, 0, 0, 0, 0, 0]
                then Some(Outgoing(e.source, AKR1 + [1, 2, h.role, 0] + ToLe(h.sessionId, 8) + h.allocation.bytes
                                             + e.bytes[32..48]
                                             + CookieFor(c, e.source, h, e.bytes[32..48], e.unix / 10)))
                else None
  {
    CookieIs(c, e.source, h, e.bytes, e.unix);
    ReplyBytes(h, HELLO_REPLY);
  }

  // Bind.

  /** A grant this relay honours now for this role of this allocation. */
  ghost predicate Honoured(c: Config, g: Grant, h: Header, unix: nat) {
    && g.relayEndpointRole == h.role as nat && g.relayAllocationId == h.allocation.bytes
    && g.version == 1 && 0 < |g.sessionUuid| && Size(g.sessionUuid) <= 128 && g.allowFastMedia && g.allowFastCompat
    && g.relayUdpProtocol == 1 && EqIgnoreCase(g.relayServer, c.relayServer) && g.relayUdpPort == c.udpPort
    && 608 <= g.relayMaxDatagram <= 1400 && 1_000 <= g.maxBitrateKbps <= 200_000
    && unix < g.expiresAt <= unix + 300
  }

  /** The packet is a bind whose cookie is of this ten seconds or the last, carrying this grant. */
  ghost predicate Presents(c: Config, source: Address, packet: Bytes, h: Header, unix: nat, g: Grant) {
    && |packet| >= 58 && 0 < FromLe(packet[56..58]) <= 4096 && |packet| == 58 + FromLe(packet[56..58])
    && (packet[48..56] == CookieFor(c, source, h, packet[32..48], unix / 10)
        || (unix >= 10 && packet[48..56] == CookieFor(c, source, h, packet[32..48], unix / 10 - 1)))
    && c.open(packet[58..]) == Some(g)
  }

  lemma {:induction false} LengthField(packet: Bytes)
    requires |packet| >= 58
    ensures FromLe(packet[56..58]) == packet[56] as nat + 256 * packet[57] as nat
  {
    var two := packet[56..58];
    var one := two[1..];
    assert one == [packet[57]] && one[1..] == [];
    assert FromLe(one) == packet[57] as nat;
  }

  /** Exactly what a bind datagram proves. */
  lemma {:induction false} BindProvesExactly(c: Config, source: Address, packet: Bytes, h: Header, unix: nat)
    ensures var terms := BindTerms(c, source, packet, h, unix);
      terms.Some? <==> exists g :: Presents(c, source, packet, h, unix, g) && Honoured(c, g, h, unix)
    ensures forall g :: Presents(c, source, packet, h, unix, g) && Honoured(c, g, h, unix) ==>
      BindTerms(c, source, packet, h, unix) ==
      Some(GrantInvariant(c.digest(g.sessionUuid), g.expiresAt, g.maxBitrateKbps, g.relayMaxDatagram))
  {
    CookieIs(c, source, h, packet, unix);
    if |packet| >= 58 {
      LengthField(packet);
      if BindTerms(c, source, packet, h, unix).Some? {
        var g := c.open(packet[58..]).value;
        assert Presents(c, source, packet, h, unix, g) && Honoured(c, g, h, unix);
      }
    }
  }

  /** The allocation after the role took this address now. */
  ghost predicate Seated(a': Allocation, role: byte, source: Address, now: nat) {
    && a'.lastActivity == now
    && var seat := if role == CONTROLLER then a'.controller else a'.target; seat.Some? && seat.value.source == source
  }

  /** The role is free, or at this address already, or may still move in this minute. */
  ghost predicate MayTake(a: Allocation, role: byte, source: Address, now: nat) {
    var seat := if role == CONTROLLER then a.controller else a.target;
    var moves := if role == CONTROLLER then a.controllerRebinds else a.targetRebinds;
    seat.None? || seat.value.source == source || now >= moves.started + 60_000 || moves.count < 12
  }

  /** The bind agrees with what the relay has under its allocation, or there is room for a new one. */
  ghost predicate Fitting(c: Config, relay: Relay, h: Header, source: Address, terms: GrantInvariant, now: nat) {
    if h.allocation in relay.allocations then
      var a := relay.allocations[h.allocation];
      a.sessionId == h.sessionId && a.terms == terms && MayTake(a, h.role, source, now)
    else |relay.allocations| < c.maxAllocations
  }

  /** A bind that passes is answered exactly when it proves terms that fit; then its role is at its address. */
  lemma {:induction false} BindExactly(c: Config, relay: Relay, e: Event, h: Header)
    requires e.Datagram? && Parse(e.bytes) == Some(h) && h.kind == BIND && Passes(c, relay, e)
    ensures var terms, (relay', out) := BindTerms(c, e.source, e.bytes, h, e.unix), Step(c, relay, e);
      if terms.Some? && Fitting(c, relay, h, e.source, terms.value, e.now) then
        && out == Some(Outgoing(e.source, AKR1 + [1, 4, h.role, 0] + ToLe(h.sessionId, 8) + h.allocation.bytes))
        && h.allocation in relay'.allocations
        && relay'.allocations == relay.allocations[h.allocation := relay'.allocations[h.allocation]]
        && var a' := relay'.allocations[h.allocation];
           && a'.sessionId == h.sessionId && a'.terms == terms.value && Seated(a', h.role, e.source, e.now)
           && (h.allocation !in relay.allocations ==>
                 a'.created == e.now && (a'.controller.None? || a'.target.None?))
      else out == None
  {
    var admitted := AllowSource(c, relay, e.source.ip, |e.bytes|, e.now);
    assert admitted.0.allocations == relay.allocations;
  }

  /** Every bound address sent, itself, a bind with a cookie of its own and a grant for that role and allocation. */
  lemma {:induction false} BindingsAreSigned(run: Run, k: nat, id: AllocationId, role: byte) returns (j: nat, g: Grant)
    requires IsRun(run) && k <= |run.events| && Alive(run, k, id) && role in {CONTROLLER, TARGET}
    requires BindingOf(run.states[k].allocations[id], role).Some?
    ensures j < k && run.events[j].Datagram? && Parse(run.events[j].bytes).Some?
    ensures var a, e := run.states[k].allocations[id], run.events[j]; var h := Parse(e.bytes).value;
      && h == Header(BIND, role, a.sessionId, id) && e.source == BindingOf(a, role).value.source
      && Presents(run.c, e.source, e.bytes, h, e.unix, g) && Honoured(run.c, g, h, e.unix)
      && a.terms == GrantInvariant(run.c.digest(g.sessionUuid), g.expiresAt, g.maxBitrateKbps, g.relayMaxDatagram)
  {
    j := BindingsAreProven(run, k, id, role);
    var e := run.events[j];
    var h := Parse(e.bytes).value;
    BindProvesExactly(run.c, e.source, e.bytes, h, e.unix);
    g :| Presents(run.c, e.source, e.bytes, h, e.unix, g) && Honoured(run.c, g, h, e.unix);
  }
}
