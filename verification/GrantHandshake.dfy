/** Grants the server issues are exactly what a relay accepts, from the first hello to a bound pair. */
module GrantHandshake {
  import opened Basics
  import opened Texts
  import opened RelayWire
  import opened RelayGrants
  import opened GrantStore
  import opened MediaRelay
  import MediaRelayTheorems
  import MediaRelayIngress

  /** A relay, and a pair of grants issued for a request under a policy, for one session at that relay. */
  datatype Meeting = Meeting(c: Config, sign: Grant -> Bytes, p: Policy, r: Request, sessionId: nat)

  ghost predicate Trusts(c: Config, sign: Grant -> Bytes) {
    forall g: Grant :: c.open(sign(g)) == Some(g)
  }

  /** The relay trusts the server's signatures, and the server issued a media pair meant for this relay. */
  ghost predicate Issued(x: Meeting) {
    && Trusts(x.c, x.sign) && Acceptable(x.p, x.r) && NewRecord(x.sign, x.p, x.r).Some?
    && NewRecord(x.sign, x.p, x.r).value.fastMedia && x.r.endpoint == Some(Endpoint(GRANT_VERSION, x.c.udpPort))
    && EqIgnoreCase(Trim(x.r.relay), x.c.relayServer)
  }

  function TermsOf(x: Meeting): GrantInvariant
    requires x.r.unix.Some?
  {
    GrantInvariant(x.c.digest(x.r.session), x.r.unix.value + x.p.ttlSeconds, x.p.maxBitrateKbps, x.p.maxDatagram)
  }

  function IdOf(x: Meeting): AllocationId {
    AllocationId(x.r.freshId)
  }

  function HalfFor(x: Meeting, role: byte): Bytes
    requires x.r.unix.Some? && NewRecord(x.sign, x.p, x.r).Some?
  {
    var record := NewRecord(x.sign, x.p, x.r).value;
    if role == TARGET then record.targetSigned else record.controllerSigned
  }

  /**
   Each half of an issued pair validates for its own role exactly while the grant is not
   expired and no more than 300 seconds ahead of the relay's clock; both halves carry the
   same terms, and a half is refused for the other role at any time.
   */
  lemma {:induction false} IssuedPairValidates(x: Meeting, h: Header, role: byte, unix: nat)
    requires Issued(x) && role in {CONTROLLER, TARGET}
    requires h.role in {CONTROLLER, TARGET} && h.allocation == IdOf(x)
    ensures var grant := x.c.open(HalfFor(x, role));
      var expiresAt := x.r.unix.value + x.p.ttlSeconds;
      && grant.Some?
      && Validated(grant.value, h, x.c.relayServer, x.c.udpPort, unix, x.c.digest) ==
         if h.role != role then WrongRole
         else if unix < expiresAt <= unix + MAX_GRANT_TTL_SECONDS then Accepted(TermsOf(x))
         else Refused
  {
  }

  // What an endpoint sends.

  function HelloPacket(h: Header, nonce: Bytes): Bytes {
    Encode(h, HELLO) + nonce + [0, 0, 0, 0, 0, 0, 0, 0]
  }

  function BindPacket(h: Header, nonce: Bytes, cookie: Bytes, signed: Bytes): Bytes {
    Encode(h, BIND) + (nonce + cookie + ToLe(|signed|, 2) + signed)
  }

  /** What an endpoint reads from the relay's answer to its hello. */
  function CookieFrom(c: Config, source: Address, h: Header, nonce: Bytes, unix: nat): Bytes {
    var out := HandleHello(c, source, HelloPacket(h, nonce), h, unix);
    if out.Some? && |out.value.bytes| >= 48 && out.value.target == source && out.value.bytes[32..48] == nonce
    then out.value.bytes[48..] else []
  }

  lemma {:induction false} CookieIsOurs(c: Config, source: Address, h: Header, nonce: Bytes, unix: nat)
    requires |h.allocation.bytes| == 16 && |nonce| == 16
    ensures CookieFrom(c, source, h, nonce, unix) == Cookie(c, source, h, nonce, unix / COOKIE_EPOCH_SECONDS)
  {
    var packet := HelloPacket(h, nonce);
    assert |Encode(h, HELLO)| == 32 == |Encode(h, HELLO_REPLY)|;
    assert packet[HEADER_BYTES..48] == nonce;
    assert packet[48..] == [0, 0, 0, 0, 0, 0, 0, 0];
  }

  lemma {:induction false} BindLayout(h: Header, nonce: Bytes, cookie: Bytes, signed: Bytes)
    requires |h.allocation.bytes| == 16 && |nonce| == 16 && |cookie| == 8 && |signed| <= MAX_AUTHORIZATION_BYTES
    ensures var packet := BindPacket(h, nonce, cookie, signed);
      && |packet| == BIND_PREFIX_BYTES + |signed| && packet[32..48] == nonce && packet[48..56] == cookie
      && packet[56] as nat + 256 * packet[57] as nat == |signed| && packet[BIND_PREFIX_BYTES..] == signed
  {
    assert |Encode(h, BIND)| == 32;
    var packet := BindPacket(h, nonce, cookie, signed);
    var n := |signed|;
    assert ToLe(n, 2) == [(n % 256) as byte, (n / 256 % 256) as byte];
    assert packet[56] == ToLe(n, 2)[0] && packet[57] == ToLe(n, 2)[1];
  }

  ghost predicate RecentHello(hello: nat, unix: nat) {
    hello / COOKIE_EPOCH_SECONDS <= unix / COOKIE_EPOCH_SECONDS <= hello / COOKIE_EPOCH_SECONDS + 1
  }

  /**
   The cookie an endpoint reads from the answer to its hello is good for a bind from the same
   address in the same or the next epoch.
   */
  lemma {:induction false} HelloCookieBinds(
    c: Config, source: Address, h: Header, nonce: Bytes, signed: Bytes, hello: nat, unix: nat)
    requires |h.allocation.bytes| == 16 && |nonce| == 16 && |signed| <= MAX_AUTHORIZATION_BYTES
    requires RecentHello(hello, unix) && |CookieFrom(c, source, h, nonce, hello)| == 8
    ensures var packet := BindPacket(h, nonce, CookieFrom(c, source, h, nonce, hello), signed);
      |packet| >= BIND_PREFIX_BYTES && CookieValid(c, source, packet, h, unix)
  {
    CookieIsOurs(c, source, h, nonce, hello);
    BindLayout(h, nonce, CookieFrom(c, source, h, nonce, hello), signed);
  }

  /** One endpoint: where and when it said hello and then binds. */
  datatype Visitor = Visitor(source: Address, role: byte, nonce: Bytes, hello: nat, now: nat, unix: nat)

  function HeaderOf(x: Meeting, e: Visitor): Header {
    Header(BIND, e.role, x.sessionId, IdOf(x))
  }

  function PacketOf(x: Meeting, e: Visitor): Bytes
    requires x.r.unix.Some? && NewRecord(x.sign, x.p, x.r).Some?
  {
    BindPacket(HeaderOf(x, e), e.nonce, CookieFrom(x.c, e.source, HeaderOf(x, e), e.nonce, e.hello), HalfFor(x, e.role))
  }

  /** The endpoint binds with a recent cookie, a well-formed header and the grant still good. */
  ghost predicate Prompt(x: Meeting, e: Visitor)
    requires x.r.unix.Some? && NewRecord(x.sign, x.p, x.r).Some?
  {
    && |e.nonce| == 16 && Requestable(HeaderOf(x, e)) && x.r.unix.value <= e.unix < x.r.unix.value + x.p.ttlSeconds
    && RecentHello(e.hello, e.unix) && |CookieFrom(x.c, e.source, HeaderOf(x, e), e.nonce, e.hello)| == 8
    && 0 < |HalfFor(x, e.role)| <= MAX_AUTHORIZATION_BYTES
  }

  lemma {:induction false} PacketProvesTerms(x: Meeting, e: Visitor)
    requires Issued(x) && Prompt(x, e)
    ensures BindTerms(x.c, e.source, PacketOf(x, e), HeaderOf(x, e), e.unix) == Some(TermsOf(x))
    ensures Parse(PacketOf(x, e)) == Some(HeaderOf(x, e))
  {
    var h, half := HeaderOf(x, e), HalfFor(x, e.role);
    var cookie := CookieFrom(x.c, e.source, h, e.nonce, e.hello);
    HelloCookieBinds(x.c, e.source, h, e.nonce, half, e.hello, e.unix);
    BindLayout(h, e.nonce, cookie, half);
    IssuedPairValidates(x, h, e.role, e.unix);
    ParseEncode(h, e.nonce + cookie + ToLe(|half|, 2) + half);
  }

  // At the relay, with whatever else goes on there.

  function BindOf(x: Meeting, e: Visitor): Event
    requires x.r.unix.Some? && NewRecord(x.sign, x.p, x.r).Some?
  {
    Datagram(e.source, PacketOf(x, e), e.now, e.unix)
  }

  /** Nothing stands in the way of binding this address to the role. */
  predicate Movable(a: Allocation, role: byte, source: Address, now: nat) {
    BindingOf(a, role).None? || BindingOf(a, role).value.source == source || TryRebind(a, role, now).1
  }

  /** The allocation is the pair's, with this address in this role. */
  ghost predicate Seated(x: Meeting, allocations: Allocations, role: byte, source: Address) {
    && x.r.unix.Some? && IdOf(x) in allocations
    && allocations[IdOf(x)].terms == TermsOf(x) && allocations[IdOf(x)].sessionId == x.sessionId
    && BindingOf(allocations[IdOf(x)], role).Some? && BindingOf(allocations[IdOf(x)], role).value.source == source
  }

  lemma {:induction false} AdmittedStep(c: Config, relay: Relay, e: Event, h: Header)
    requires MediaRelayIngress.Admitted(c, relay, e) && Parse(e.bytes) == Some(h) && h.kind == BIND
    ensures var admitted := AllowSource(c, relay, e.source.ip, |e.bytes|, e.now).0;
      && admitted.allocations == relay.allocations && admitted.cleanupOrder == relay.cleanupOrder
      && Step(c, relay, e) == HandleBind(c, admitted, e.source, e.bytes, h, e.now, e.unix)
  {
  }

  /** The first endpoint to arrive opens the allocation. */
  lemma {:induction false} FirstSeated(x: Meeting, relay: Relay, e: Visitor)
    requires Issued(x) && Prompt(x, e) && MediaRelayIngress.Admitted(x.c, relay, BindOf(x, e))
    requires IdOf(x) !in relay.allocations && |relay.allocations| < x.c.maxAllocations
    ensures var (relay', out) := Step(x.c, relay, BindOf(x, e));
      Seated(x, relay'.allocations, e.role, e.source) && out.Some? && out.value.target == e.source
  {
    PacketProvesTerms(x, e);
    AdmittedStep(x.c, relay, BindOf(x, e), HeaderOf(x, e));
  }

  /** One that finds it there takes its role exactly when nothing stands in the way. */
  lemma {:induction false} LaterSeated(x: Meeting, relay: Relay, e: Visitor)
    requires Issued(x) && Prompt(x, e) && MediaRelayIngress.Admitted(x.c, relay, BindOf(x, e))
    requires IdOf(x) in relay.allocations
    requires relay.allocations[IdOf(x)].terms == TermsOf(x) && relay.allocations[IdOf(x)].sessionId == x.sessionId
    ensures var (relay', out) := Step(x.c, relay, BindOf(x, e));
      && (out.Some? <==> Movable(relay.allocations[IdOf(x)], e.role, e.source, e.now))
      && (out.Some? ==> out.value.target == e.source && Seated(x, relay'.allocations, e.role, e.source))
      && IdOf(x) in relay'.allocations
      && (BindingOf(relay.allocations[IdOf(x)], Opposite(e.role)).Some? ==>
            BindingOf(relay'.allocations[IdOf(x)], Opposite(e.role))
                == BindingOf(relay.allocations[IdOf(x)], Opposite(e.role)))
  {
    PacketProvesTerms(x, e);
    AdmittedStep(x.c, relay, BindOf(x, e), HeaderOf(x, e));
  }

  /** Event `k` is this endpoint's bind, and the limiters let it in. */
  ghost predicate BindsAt(x: Meeting, run: MediaRelayTheorems.Run, k: nat, e: Visitor) {
    && Issued(x) && Prompt(x, e) && run.c == x.c && k < |run.events| && k < |run.states|
    && run.events[k] == BindOf(x, e) && MediaRelayIngress.Admitted(x.c, run.states[k], run.events[k])
  }

  lemma {:induction false} PairOpens(x: Meeting, run: MediaRelayTheorems.Run, i: nat, first: Visitor)
    requires MediaRelayTheorems.IsRun(run) && BindsAt(x, run, i, first)
    requires IdOf(x) !in run.states[i].allocations && |run.states[i].allocations| < x.c.maxAllocations
    ensures Seated(x, run.states[i + 1].allocations, first.role, first.source)
  {
    assert MediaRelayTheorems.StepAt(run, i);
    FirstSeated(x, run.states[i], first);
  }

  /** The terms and the first role last as long as the allocation does. */
  lemma {:induction false} PairWaits(
    x: Meeting, run: MediaRelayTheorems.Run, i: nat, j: nat, role: byte, source: Address)
    requires MediaRelayTheorems.IsRun(run) && i < j <= |run.events| && role in {CONTROLLER, TARGET}
    requires Seated(x, run.states[i + 1].allocations, role, source)
    requires MediaRelayTheorems.AliveThroughout(run, i + 1, j, IdOf(x))
    ensures IdOf(x) in run.states[j].allocations
    ensures run.states[j].allocations[IdOf(x)].terms == TermsOf(x)
    ensures run.states[j].allocations[IdOf(x)].sessionId == x.sessionId
    ensures BindingOf(run.states[j].allocations[IdOf(x)], role).Some?
  {
    MediaRelayTheorems.TermsFixed(run, i + 1, j, IdOf(x));
  }

  lemma {:induction false} PairJoins(x: Meeting, run: MediaRelayTheorems.Run, j: nat, second: Visitor)
    requires MediaRelayTheorems.IsRun(run) && BindsAt(x, run, j, second) && IdOf(x) in run.states[j].allocations
    requires run.states[j].allocations[IdOf(x)].terms == TermsOf(x)
    requires run.states[j].allocations[IdOf(x)].sessionId == x.sessionId
    requires BindingOf(run.states[j].allocations[IdOf(x)], Opposite(second.role)).Some?
    requires Movable(run.states[j].allocations[IdOf(x)], second.role, second.source, second.now)
    ensures Seated(x, run.states[j + 1].allocations, second.role, second.source)
    ensures BindingOf(run.states[j + 1].allocations[IdOf(x)], Opposite(second.role)).Some?
  {
    assert MediaRelayTheorems.StepAt(run, j);
    LaterSeated(x, run.states[j], second);
  }

  /**
   In every run of the relay: the first of the two endpoints to bind opens the allocation, and
   whatever arrives meanwhile, when the second binds it takes its role beside the first's, unless
   its role was bound elsewhere and has used up its moves.
   */
  lemma {:induction false} PairMeetsAtRelay(
    x: Meeting, run: MediaRelayTheorems.Run, i: nat, j: nat, first: Visitor, second: Visitor)
    requires MediaRelayTheorems.IsRun(run) && i < j && BindsAt(x, run, i, first) && BindsAt(x, run, j, second)
    requires second.role == Opposite(first.role)
    requires IdOf(x) !in run.states[i].allocations && |run.states[i].allocations| < x.c.maxAllocations
    requires MediaRelayTheorems.AliveThroughout(run, i + 1, j, IdOf(x))
    ensures Seated(x, run.states[i + 1].allocations, first.role, first.source) && IdOf(x) in run.states[j].allocations
    ensures Movable(run.states[j].allocations[IdOf(x)], second.role, second.source, second.now) ==>
      && Seated(x, run.states[j + 1].allocations, second.role, second.source)
      && BindingOf(run.states[j + 1].allocations[IdOf(x)], first.role).Some?
  {
    PairOpens(x, run, i, first);
    PairWaits(x, run, i, j, first.role, first.source);
    if Movable(run.states[j].allocations[IdOf(x)], second.role, second.source, second.now) {
      PairJoins(x, run, j, second);
    }
  }
}
