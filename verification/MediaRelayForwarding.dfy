/** Exactly which media the relay passes on. */
module MediaRelayForwarding {
  import opened Basics
  import opened RelayWire
  import opened RelayGrants
  import opened ReplayWindows
  import opened TokenBuckets
  import opened MediaRelay
  import opened MediaRelaySafety
  import opened MediaRelayTheorems

  // What a datagram must be.

  /** Within the grants' time, 300 seconds, the idle time, and, until both roles are bound, the time for that. */
  predicate InTime(c: Config, a: Allocation, now: nat, unix: nat) {
    && unix < a.terms.expiresAt && now <= a.created + 300_000 && now <= a.lastActivity + c.idleTtl
    && ((a.controller.Some? && a.target.Some?) || now <= a.created + c.halfBindTtl)
  }

  lemma {:induction false} ExpiredExactly(c: Config, a: Allocation, now: nat, unix: nat)
    ensures Expired(c, a, now, unix) <==> !InTime(c, a, now, unix)
  {
  }

  /** The datagram of the role's frame with this number and rest. */
  function MediaDatagram(role: byte, sessionId: nat, id: AllocationId, sequence: nat, rest: Bytes): Bytes
    requires role in {CONTROLLER, TARGET}
  {
    Encode(Header(MEDIA, role, sessionId, id), 5) + MediaFrame(role, sessionId, sequence, rest)
  }

  /** The addresses bound to the two roles, if both are. */
  predicate Meets(a: Allocation, role: byte, source: Address) {
    && a.controller.Some? && a.target.Some?
    && source == if role == CONTROLLER then a.controller.value.source else a.target.value.source
  }

  /** A frame for this role of this allocation, in time, from the role's address, not too large. */
  ghost predicate Offered(c: Config, e: Event, id: AllocationId, a: Allocation, role: byte) {
    && e.Datagram? && role in {CONTROLLER, TARGET} && Requestable(Header(MEDIA, role, a.sessionId, id))
    && |e.bytes| >= 121 && Stamp(e) > 0
    && e.bytes == MediaDatagram(role, a.sessionId, id, Stamp(e), e.bytes[54..])
    && Meets(a, role, e.source) && InTime(c, a, e.now, e.unix) && |e.bytes| <= a.terms.maxDatagram
  }

  lemma {:induction false} OfferedIsCarried(c: Config, e: Event, id: AllocationId, a: Allocation, role: byte)
    requires Offered(c, e, id, a, role)
    ensures Carries(c, e, id, a, role, Stamp(e))
  {
    var h := Header(MEDIA, role, a.sessionId, id);
    var frame := MediaFrame(role, a.sessionId, Stamp(e), e.bytes[54..]);
    ParseEncode(h, frame);
    EncodeLayout(h, MEDIA, frame);
    assert e.bytes[HEADER_BYTES..] == frame;
    ToFromLe(e.bytes[46..54]);
    FrameRead(role, a.sessionId, Stamp(e), e.bytes[54..], role, a.sessionId);
    ExpiredExactly(c, a, e.now, e.unix);
  }

  lemma {:induction false} CarriedIsOffered(c: Config, e: Event, id: AllocationId, a: Allocation, role: byte, n: nat)
    requires Carries(c, e, id, a, role, n)
    ensures Offered(c, e, id, a, role) && n == Stamp(e)
  {
    var h := Parse(e.bytes).value;
    EncodeParse(e.bytes);
    var payload := e.bytes[HEADER_BYTES..];
    FrameWritten(payload, role, a.sessionId);
    StampIsSequence(e);
    assert payload[22..] == e.bytes[54..];
    ExpiredExactly(c, a, e.now, e.unix);
  }

  // The limits a datagram must get past first.

  ghost predicate Passes(c: Config, relay: Relay, e: Event) {
    e.Datagram? && AllowSource(c, relay, e.source.ip, |e.bytes|, e.now).1
  }

  /** What becomes of the allocation a passing media datagram is for, and what is sent. */
  lemma {:induction false} MediaHandled(c: Config, relay: Relay, e: Event, id: AllocationId, role: byte)
    requires id in relay.allocations && Offered(c, e, id, relay.allocations[id], role) && Passes(c, relay, e)
    ensures var a, (relay', out) := relay.allocations[id], Step(c, relay, e);
      && BindingOf(a, role).Some? && id in relay'.allocations
      && relay'.allocations[id] == Spend(a, role, Stamp(e), |e.bytes|, e.now).0
      && (out.Some? <==> Spend(a, role, Stamp(e), |e.bytes|, e.now).1)
      && Parse(e.bytes).Some? && Parse(e.bytes).value.kind == MEDIA && Parse(e.bytes).value.allocation == id
      && RoleOf(e) == role
  {
    OfferedIsCarried(c, e, id, relay.allocations[id], role);
    var admitted := AllowSource(c, relay, e.source.ip, |e.bytes|, e.now);
    assert admitted.0.allocations == relay.allocations;
  }

  /** A media datagram that is not such a one, or does not pass, changes no allocation and is not sent. */
  lemma {:induction false} MediaIgnored(c: Config, relay: Relay, e: Event)
    requires e.Datagram? && Parse(e.bytes).Some? && Parse(e.bytes).value.kind == MEDIA
    requires var h := Parse(e.bytes).value;
      !Passes(c, relay, e) || h.allocation !in relay.allocations
      || !Offered(c, e, h.allocation, relay.allocations[h.allocation], h.role)
    ensures Step(c, relay, e).0.allocations == relay.allocations && Step(c, relay, e).1 == None
  {
    var h := Parse(e.bytes).value;
    var admitted := AllowSource(c, relay, e.source.ip, |e.bytes|, e.now);
    assert admitted.0.allocations == relay.allocations;
    if h.allocation in relay.allocations {
      var sequence := Carriable(c, relay.allocations[h.allocation], e.source, e.bytes, h, e.now, e.unix);
      if sequence.Some? {
        CarriedIsOffered(c, e, h.allocation, relay.allocations[h.allocation], h.role, sequence.value);
      }
    }
  }

  // The numbers a role has used.

  ghost predicate OfferedAt(run: Run, k: nat, id: AllocationId, role: byte) {
    && k < |run.events| && Alive(run, k, id) && Passes(run.c, run.states[k], run.events[k])
    && Offered(run.c, run.events[k], id, run.states[k].allocations[id], role)
  }

  /** The numbers that came in events `i` to `k - 1` and were fresh when they came. */
  ghost function Taken(run: Run, i: nat, k: nat, id: AllocationId, role: byte): set<nat>
    requires k <= |run.events|
    decreases k
  {
    if k <= i then {}
    else
      var before, n := Taken(run, i, k - 1, id, role), Stamp(run.events[k - 1]);
      if OfferedAt(run, k - 1, id, role) && Fresh(before, n) then before + {n} else before
  }

  /** The role's window stands for these numbers; without a binding there are none. */
  ghost predicate Holds(a: Allocation, role: byte, taken: set<nat>) {
    if BindingOf(a, role).None? then taken == {} else Represents(BindingOf(a, role).value.replay, taken)
  }

  lemma {:induction false} SpendHolds(a: Allocation, role: byte, n: nat, size: nat, now: nat, taken: set<nat>)
    requires role in {CONTROLLER, TARGET} && BindingOf(a, role).Some? && Holds(a, role, taken)
    ensures Holds(Spend(a, role, n, size, now).0, role, if Fresh(taken, n) then taken + {n} else taken)
    ensures Spend(a, role, n, size, now).1 <==>
      Fresh(taken, n) && Allow(BindingOf(a, role).value.limiter, size, now).1
  {
    AcceptRefines(BindingOf(a, role).value.replay, taken, n);
  }

  lemma {:induction false} BindHolds(a: Allocation, bound: byte, source: Address, now: nat, role: byte, taken: set<nat>)
    requires role in {CONTROLLER, TARGET} && bound in {CONTROLLER, TARGET} && Holds(a, role, taken)
    ensures Holds(BindRole(a, bound, source, now).0, role, taken)
  {
  }

  lemma {:induction false} OtherSpendHolds(
    a: Allocation, sender: byte, n: nat, size: nat, now: nat, role: byte, taken: set<nat>)
    requires role in {CONTROLLER, TARGET} && sender in {CONTROLLER, TARGET} && sender != role
    requires BindingOf(a, sender).Some? && Holds(a, role, taken)
    ensures Holds(Spend(a, sender, n, size, now).0, role, taken)
  {
  }

  /** A step that offers the role nothing leaves its numbers alone. */
  lemma {:induction false} UnofferedHolds(c: Config, relay: Relay, clock: nat, e: Event, id: AllocationId, role: byte,
                                         taken: set<nat>)
    requires TableOk(c, relay, clock) && id in relay.allocations && id in Step(c, relay, e).0.allocations
    requires role in {CONTROLLER, TARGET} && Holds(relay.allocations[id], role, taken)
    requires !(Passes(c, relay, e) && Offered(c, e, id, relay.allocations[id], role))
    ensures Holds(Step(c, relay, e).0.allocations[id], role, taken)
  {
    var a, a' := relay.allocations[id], Step(c, relay, e).0.allocations[id];
    AllocationStep(c, relay, clock, e, id);
    if a' != a {
      if Binds(c, e, id, a, RoleOf(e)) {
        BindHolds(a, RoleOf(e), e.source, e.now, role, taken);
      } else {
        CarriedIsOffered(c, e, id, a, RoleOf(e), SequenceOf(e));
        MediaIgnoredOrOther(c, relay, e, id, role);
        OtherSpendHolds(a, RoleOf(e), SequenceOf(e), |e.bytes|, e.now, role, taken);
      }
    }
  }

  lemma {:induction false} MediaIgnoredOrOther(c: Config, relay: Relay, e: Event, id: AllocationId, role: byte)
    requires e.Datagram? && Parse(e.bytes).Some? && Parse(e.bytes).value.kind == MEDIA
    requires Parse(e.bytes).value.allocation == id && id in relay.allocations
    requires !(Passes(c, relay, e) && Offered(c, e, id, relay.allocations[id], role))
    ensures RoleOf(e) == role ==> Step(c, relay, e).0.allocations == relay.allocations
  {
    if RoleOf(e) == role { MediaIgnored(c, relay, e); }
  }

  /** A new allocation has just one role bound, with nothing used. */
  lemma {:induction false} Born(c: Config, relay: Relay, clock: nat, e: Event, id: AllocationId, role: byte)
    requires TableOk(c, relay, clock) && id !in relay.allocations && id in Step(c, relay, e).0.allocations
    requires role in {CONTROLLER, TARGET}
    ensures var a := Step(c, relay, e).0.allocations[id];
      Holds(a, role, {}) && Budget(a, role, e.now) == WireBurst(a.terms.maxBitrateKbps) as real
  {
    match e
    case Cleanup(now, unix) =>
      CleanShrinks(c, Table(relay.allocations, relay.cleanupOrder), now, unix, CLEANUP_PER_TICK);
    case Datagram(source, packet, now, unix) =>
      var h := Parse(packet).value;
      var admitted := AllowSource(c, relay, source.ip, |packet|, now);
      assert admitted.0.allocations == relay.allocations;
      TermsInRange(c, source, packet, h, unix);
      RoleBucketOk(BindTerms(c, source, packet, h, unix).value, now);
      assert Represents(EMPTY, {});
  }

  ghost predicate BornAt(run: Run, i: nat, id: AllocationId) {
    i < |run.events| && !Alive(run, i, id) && Alive(run, i + 1, id)
  }

  ghost predicate HoldsIn(run: Run, i: nat, k: nat, id: AllocationId, role: byte) {
    && k <= |run.events| && Alive(run, k, id)
    && Holds(run.states[k].allocations[id], role, Taken(run, i + 1, k, id, role))
  }

  lemma {:induction false} BirthHolds(run: Run, i: nat, id: AllocationId, role: byte)
    requires IsRun(run) && BornAt(run, i, id) && role in {CONTROLLER, TARGET}
    ensures HoldsIn(run, i, i + 1, id, role)
  {
    TableAlwaysOk(run, i);
    assert StepAt(run, i);
    Born(run.c, run.states[i], ClockAt(run, i), run.events[i], id, role);
  }

  lemma {:induction false} OfferedHolds(run: Run, i: nat, k: nat, id: AllocationId, role: byte)
    requires IsRun(run) && k < |run.events| && HoldsIn(run, i, k, id, role) && OfferedAt(run, k, id, role) && i < k
    ensures HoldsIn(run, i, k + 1, id, role)
  {
    assert StepAt(run, k);
    var e, a := run.events[k], run.states[k].allocations[id];
    MediaHandled(run.c, run.states[k], e, id, role);
    SpendHolds(a, role, Stamp(e), |e.bytes|, e.now, Taken(run, i + 1, k, id, role));
  }

  lemma {:induction false} HoldsNext(run: Run, i: nat, k: nat, id: AllocationId, role: byte)
    requires IsRun(run) && i < k < |run.events| && HoldsIn(run, i, k, id, role) && Alive(run, k + 1, id)
    requires role in {CONTROLLER, TARGET}
    ensures HoldsIn(run, i, k + 1, id, role)
  {
    if OfferedAt(run, k, id, role) {
      OfferedHolds(run, i, k, id, role);
    } else {
      TableAlwaysOk(run, k);
      assert StepAt(run, k);
      UnofferedHolds(run.c, run.states[k], ClockAt(run, k), run.events[k], id, role, Taken(run, i + 1, k, id, role));
    }
  }

  ghost predicate HoldsAt(run: Run, i: nat, k: nat, id: AllocationId, role: byte) {
    forall n: nat :: n == k ==> HoldsIn(run, i, n, id, role)
  }

  lemma {:induction false} HoldsOn(run: Run, i: nat, k: nat, id: AllocationId, role: byte)
    requires IsRun(run) && i < k && k <= |run.events| && Alive(run, k, id) && role in {CONTROLLER, TARGET}
    requires if k == i + 1 then BornAt(run, i, id) else HoldsAt(run, i, k - 1, id, role)
    ensures HoldsAt(run, i, k, id, role)
  {
    if k == i + 1 {
      BirthHolds(run, i, id, role);
    } else {
      assert HoldsIn(run, i, k - 1, id, role);
      HoldsNext(run, i, k - 1, id, role);
    }
  }

  /** Throughout a lifetime the window stands for the numbers taken in it, across all rebinds. */
  lemma {:induction false} WindowHolds(run: Run, i: nat, k: nat, id: AllocationId, role: byte)
    requires IsRun(run) && i < k <= |run.events| && BornAt(run, i, id) && AliveThroughout(run, i + 1, k, id)
    requires role in {CONTROLLER, TARGET}
    ensures HoldsAt(run, i, k, id, role)
    decreases k
  {
    assert Alive(run, k, id);
    if k > i + 1 {
      WindowHolds(run, i, k - 1, id, role);
    }
    HoldsOn(run, i, k, id, role);
  }

  // The credit a role has left.

  /** Between events the budget refills at the wire rate, up to the burst. */
  lemma {:induction false} LaterBudget(a: Allocation, role: byte, now: nat, later: nat)
    requires AllocationOk(a, now) && now <= later
    ensures Budget(a, role, later) ==
      MinReal(Budget(a, role, now) + Flow(a, later - now), WireBurst(a.terms.maxBitrateKbps) as real)
  {
    InflowPositive(WireRate(a.terms.maxBitrateKbps), later - now);
    if BindingOf(a, role).Some? {
      CreditRefills(BindingOf(a, role).value.limiter, now, later);
    }
  }

  lemma {:induction false} BindBudget(a: Allocation, bound: byte, source: Address, clock: nat, now: nat, role: byte)
    requires AllocationOk(a, clock) && clock <= now && role in {CONTROLLER, TARGET} && bound in {CONTROLLER, TARGET}
    ensures Budget(BindRole(a, bound, source, now).0, role, now) == Budget(a, role, now)
  {
    RoleBucketOk(a.terms, now);
  }

  lemma {:induction false} SpendBudget(
    a: Allocation, sender: byte, n: nat, size: nat, clock: nat, now: nat, role: byte)
    requires AllocationOk(a, clock) && clock <= now && BindingOf(a, sender).Some?
    requires role in {CONTROLLER, TARGET} && sender in {CONTROLLER, TARGET}
    ensures var (a', ok) := Spend(a, sender, n, size, now);
      Budget(a', role, now) + (if ok && role == sender then size as real else 0.0) == Budget(a, role, now)
  {
    AllowTakes(BindingOf(a, sender).value.limiter, size, now);
  }

  /** A step takes from the budget exactly what it sends. */
  ghost predicate Settles(c: Config, relay: Relay, e: Event, id: AllocationId, role: byte) {
    && id in relay.allocations && id in Step(c, relay, e).0.allocations
    && var f := Forwarding(c, relay, e);
       Budget(Step(c, relay, e).0.allocations[id], role, e.now)
         + (if f.Some? && f.value.id == id && f.value.role == role then |e.bytes| as real else 0.0)
         == Budget(relay.allocations[id], role, e.now)
  }

  lemma {:induction false} OfferedSettles(
    c: Config, relay: Relay, clock: nat, e: Event, id: AllocationId, sender: byte, role: byte)
    requires TableOk(c, relay, clock) && clock <= e.now && id in relay.allocations
    requires Offered(c, e, id, relay.allocations[id], sender) && Passes(c, relay, e) && role in {CONTROLLER, TARGET}
    ensures Settles(c, relay, e, id, role)
  {
    MediaHandled(c, relay, e, id, sender);
    SpendBudget(relay.allocations[id], sender, Stamp(e), |e.bytes|, clock, e.now, role);
  }

  lemma {:induction false} UntouchedSettles(c: Config, relay: Relay, e: Event, id: AllocationId, role: byte)
    requires id in relay.allocations && id in Step(c, relay, e).0.allocations
    requires Step(c, relay, e).0.allocations[id] == relay.allocations[id]
    requires e.Datagram? && Parse(e.bytes).Some? ==>
        Parse(e.bytes).value.allocation != id || Step(c, relay, e).1 == None
    ensures Settles(c, relay, e, id, role)
  {
  }

  lemma {:induction false} MediaForOther(c: Config, relay: Relay, clock: nat, e: Event, id: AllocationId)
    requires TableOk(c, relay, clock) && id in relay.allocations && id in Step(c, relay, e).0.allocations
    requires e.Datagram? && Parse(e.bytes).Some? && Parse(e.bytes).value.allocation != id
    ensures Step(c, relay, e).0.allocations[id] == relay.allocations[id]
  {
    AllocationStep(c, relay, clock, e, id);
  }

  lemma {:induction false} MediaSettles(c: Config, relay: Relay, clock: nat, e: Event, id: AllocationId, role: byte)
    requires TableOk(c, relay, clock) && clock <= e.now && role in {CONTROLLER, TARGET}
    requires id in relay.allocations && id in Step(c, relay, e).0.allocations
    requires e.Datagram? && Parse(e.bytes).Some? && Parse(e.bytes).value.kind == MEDIA
    ensures Settles(c, relay, e, id, role)
  {
    var h := Parse(e.bytes).value;
    if !Passes(c, relay, e) || h.allocation !in relay.allocations
       || !Offered(c, e, h.allocation, relay.allocations[h.allocation], h.role) {
      MediaIgnored(c, relay, e);
      UntouchedSettles(c, relay, e, id, role);
    } else if h.allocation == id {
      OfferedSettles(c, relay, clock, e, id, h.role, role);
    } else {
      MediaForOther(c, relay, clock, e, id);
      UntouchedSettles(c, relay, e, id, role);
    }
  }

  lemma {:induction false} StepSettles(c: Config, relay: Relay, clock: nat, e: Event, id: AllocationId, role: byte)
    requires TableOk(c, relay, clock) && clock <= e.now && role in {CONTROLLER, TARGET}
    requires id in relay.allocations && id in Step(c, relay, e).0.allocations
    ensures Settles(c, relay, e, id, role)
  {
    var a, a' := relay.allocations[id], Step(c, relay, e).0.allocations[id];
    if e.Datagram? && Parse(e.bytes).Some? && Parse(e.bytes).value.kind == MEDIA {
      MediaSettles(c, relay, clock, e, id, role);
    } else {
      AllocationStep(c, relay, clock, e, id);
      if a' != a { BindBudget(a, RoleOf(e), e.source, clock, e.now, role); }
    }
  }

  ghost predicate SettledAt(run: Run, k: nat, id: AllocationId, role: byte) {
    && k < |run.events| && Alive(run, k, id) && Alive(run, k + 1, id)
    && Budget(run.states[k + 1].allocations[id], role, run.events[k].now) + SentAt(run, k, id, role) as real
       == Budget(run.states[k].allocations[id], role, run.events[k].now)
    && run.states[k + 1].allocations[id].terms == run.states[k].allocations[id].terms
  }

  lemma {:induction false} Settled(run: Run, k: nat, id: AllocationId, role: byte)
    requires IsRun(run) && k < |run.events| && Alive(run, k, id) && Alive(run, k + 1, id)
    requires role in {CONTROLLER, TARGET}
    ensures SettledAt(run, k, id, role)
  {
    TableAlwaysOk(run, k);
    assert StepAt(run, k);
    TreatedAt(run, k, id);
    TreatsSameLifetime(run.c, run.events[k], id, run.states[k].allocations[id], run.states[k + 1].allocations[id]);
    StepSettles(run.c, run.states[k], ClockAt(run, k), run.events[k], id, role);
  }

  /** The time of event `j`, the one to come being now. */
  function AtEvent(run: Run, k: nat, now: nat, j: nat): nat
    requires k <= |run.events|
  {
    if j < k then run.events[j].now else now
  }

  /** What the role sent since event `j` and what it may still send, against the burst and what flowed in since. */
  function SentAndLeft(run: Run, j: nat, k: nat, id: AllocationId, role: byte, now: nat): real
    requires j <= k <= |run.events| && k < |run.states| && id in run.states[k].allocations
  {
    Budget(run.states[k].allocations[id], role, now) + SentBetween(run, j, k, id, role) as real
  }

  function Allowance(a: Allocation, ms: nat): real {
    WireBurst(a.terms.maxBitrateKbps) as real + Flow(a, ms)
  }

  /** After event `k - 1` the budget is what it was before it, less what it sent, and refills from then on. */
  lemma {:induction false} NextBudget(run: Run, k: nat, id: AllocationId, role: byte, now: nat)
    requires IsRun(run) && 0 < k <= |run.events| && Alive(run, k - 1, id) && Alive(run, k, id)
    requires ClockAt(run, k) <= now && role in {CONTROLLER, TARGET}
    ensures var a, a', before := run.states[k - 1].allocations[id], run.states[k].allocations[id],
        run.events[k - 1].now;
      && a'.terms == a.terms && ClockAt(run, k - 1) <= before <= now
      && Budget(a', role, now) ==
         MinReal(Budget(a, role, before) - SentAt(run, k - 1, id, role) as real + Flow(a, now - before),
                 WireBurst(a.terms.maxBitrateKbps) as real)
  {
    Settled(run, k - 1, id, role);
    AliveOk(run, k, id);
    ClockNext(run, k - 1);
    LaterBudget(run.states[k].allocations[id], role, run.events[k - 1].now, now);
  }

  lemma {:induction false} BudgetAtMost(run: Run, j: nat, k: nat, id: AllocationId, role: byte, now: nat)
    requires IsRun(run) && k <= |run.events| && AliveThroughout(run, j, k, id) && Alive(run, k, id)
    requires ClockAt(run, k) <= now && role in {CONTROLLER, TARGET}
    ensures AtEvent(run, k, now, j) <= now
    ensures SentAndLeft(run, j, k, id, role, now)
            <= Allowance(run.states[k].allocations[id], now - AtEvent(run, k, now, j))
    decreases k
  {
    var a := run.states[k].allocations[id];
    if j == k {
      AliveOk(run, k, id);
      AllocationLater(a, ClockAt(run, k), now);
      BudgetBounds(a, role, now);
      assert Flow(a, 0) == 0.0;
    } else {
      assert Alive(run, k - 1, id);
      NextBudget(run, k, id, role, now);
      BudgetAtMost(run, j, k - 1, id, role, run.events[k - 1].now);
      InflowAdds(WireRate(a.terms.maxBitrateKbps),
                 run.events[k - 1].now - AtEvent(run, k - 1, run.events[k - 1].now, j), now - run.events[k - 1].now);
    }
  }

  lemma {:induction false} BirthFull(run: Run, i: nat, id: AllocationId, role: byte)
    requires IsRun(run) && BornAt(run, i, id) && role in {CONTROLLER, TARGET}
    ensures Budget(run.states[i + 1].allocations[id], role, run.events[i].now)
            == WireBurst(run.states[i + 1].allocations[id].terms.maxBitrateKbps) as real
  {
    TableAlwaysOk(run, i);
    assert StepAt(run, i);
    Born(run.c, run.states[i], ClockAt(run, i), run.events[i], id, role);
  }

  lemma {:induction false} BirthBudget(run: Run, i: nat, id: AllocationId, role: byte, now: nat)
    requires IsRun(run) && BornAt(run, i, id) && role in {CONTROLLER, TARGET} && run.events[i].now <= now
    ensures Budget(run.states[i + 1].allocations[id], role, now)
            == WireBurst(run.states[i + 1].allocations[id].terms.maxBitrateKbps) as real
  {
    var a := run.states[i + 1].allocations[id];
    BirthFull(run, i, id, role);
    AliveOk(run, i + 1, id);
    LaterBudget(a, role, run.events[i].now, now);
    InflowPositive(WireRate(a.terms.maxBitrateKbps), now - run.events[i].now);
  }

  /** In every lifetime there is an event since which the role has been allowed exactly its burst and the inflow. */
  lemma {:induction false} BudgetTight(run: Run, i: nat, k: nat, id: AllocationId, role: byte, now: nat)
    returns (j: nat)
    requires IsRun(run) && i < k <= |run.events| && BornAt(run, i, id) && AliveThroughout(run, i + 1, k, id)
    requires ClockAt(run, k) <= now && role in {CONTROLLER, TARGET} && Alive(run, k, id)
    ensures i < j <= k && AtEvent(run, k, now, j) <= now
    ensures SentAndLeft(run, j, k, id, role, now)
            == Allowance(run.states[k].allocations[id], now - AtEvent(run, k, now, j))
    decreases k
  {
    var a := run.states[k].allocations[id];
    j := k;
    assert Flow(a, 0) == 0.0;
    if k == i + 1 {
      BirthBudget(run, i, id, role, now);
    } else {
      assert Alive(run, k - 1, id);
      NextBudget(run, k, id, role, now);
      if Budget(a, role, now) != WireBurst(a.terms.maxBitrateKbps) as real {
        var before := run.events[k - 1].now;
        j := BudgetTight(run, i, k - 1, id, role, before);
        InflowAdds(WireRate(a.terms.maxBitrateKbps), before - AtEvent(run, k - 1, before, j), now - before);
      }
    }
  }

  // The rule.

  /** Sent since every event of the lifetime, with this much more, within the burst and what flowed in since. */
  ghost predicate WithinRate(run: Run, i: nat, k: nat, id: AllocationId, role: byte, size: nat, now: nat)
    requires k <= |run.events| && k < |run.states| && id in run.states[k].allocations
  {
    forall j: nat :: i < j <= k ==> WithinSince(run, j, k, id, role, size, now)
  }

  ghost predicate WithinSince(run: Run, j: nat, k: nat, id: AllocationId, role: byte, size: nat, now: nat)
    requires j <= k <= |run.events| && k < |run.states| && id in run.states[k].allocations
  {
    var kbps, since := run.states[k].allocations[id].terms.maxBitrateKbps, AtEvent(run, k, now, j);
    && since <= now
    && (SentBetween(run, j, k, id, role) + size) as real
         <= WireBurst(kbps) as real + Inflow(WireRate(kbps), now - since)
  }

  lemma {:induction false} WithinIsCovered(
    run: Run, i: nat, k: nat, id: AllocationId, role: byte, size: nat, now: nat)
    requires IsRun(run) && i < k <= |run.events| && BornAt(run, i, id) && AliveThroughout(run, i + 1, k, id)
    requires ClockAt(run, k) <= now && role in {CONTROLLER, TARGET} && Alive(run, k, id)
    ensures WithinRate(run, i, k, id, role, size, now) <==>
      size as real <= Budget(run.states[k].allocations[id], role, now)
  {
    forall j: nat | i < j <= k
      ensures AtEvent(run, k, now, j) <= now
      ensures SentAndLeft(run, j, k, id, role, now)
              <= Allowance(run.states[k].allocations[id], now - AtEvent(run, k, now, j))
    {
      BudgetAtMost(run, j, k, id, role, now);
    }
    var tight := BudgetTight(run, i, k, id, role, now);
    if WithinRate(run, i, k, id, role, size, now) {
      assert WithinSince(run, tight, k, id, role, size, now);
    }
  }

  /** The datagram is media of this role and allocation and is passed on. */
  ghost predicate ForwardedAt(run: Run, k: nat, id: AllocationId, role: byte) {
    && k < |run.events| && k < |run.states|
    && var f := Forwarding(run.c, run.states[k], run.events[k]);
       f.Some? && f.value.id == id && f.value.role == role
  }

  lemma {:induction false} ForwardedWasOffered(run: Run, k: nat, id: AllocationId, role: byte)
    requires ForwardedAt(run, k, id, role)
    ensures OfferedAt(run, k, id, role)
  {
    var e := run.events[k];
    if !Passes(run.c, run.states[k], e) || !Alive(run, k, id)
       || !Offered(run.c, e, id, run.states[k].allocations[id], role) {
      MediaIgnored(run.c, run.states[k], e);
    }
  }

  lemma {:induction false} OfferedForwards(run: Run, i: nat, k: nat, id: AllocationId, role: byte)
    requires IsRun(run) && k < |run.events| && HoldsIn(run, i, k, id, role) && OfferedAt(run, k, id, role)
    ensures ForwardedAt(run, k, id, role) <==>
      && Fresh(Taken(run, i + 1, k, id, role), Stamp(run.events[k]))
      && |run.events[k].bytes| as real <= Budget(run.states[k].allocations[id], role, run.events[k].now)
  {
    assert StepAt(run, k);
    var e, a := run.events[k], run.states[k].allocations[id];
    MediaHandled(run.c, run.states[k], e, id, role);
    SpendHolds(a, role, Stamp(e), |e.bytes|, e.now, Taken(run, i + 1, k, id, role));
    AliveOk(run, k, id);
    AllowTakes(BindingOf(a, role).value.limiter, |e.bytes|, e.now);
  }

  /**
   In every run and every lifetime, exactly which media is passed on: frames of this role and
   allocation that are in time, from the role's address, not too large and past the relay's own limits,
   whose number is fresh among those the role has used, while sent bytes stay within the wire rate.
   */
  lemma {:induction false} ForwardedExactly(run: Run, i: nat, k: nat, id: AllocationId, role: byte)
    requires IsRun(run) && i < k < |run.events| && BornAt(run, i, id) && AliveThroughout(run, i + 1, k, id)
    requires role in {CONTROLLER, TARGET} && Alive(run, k, id)
    ensures ForwardedAt(run, k, id, role) <==>
      && OfferedAt(run, k, id, role) && Fresh(Taken(run, i + 1, k, id, role), Stamp(run.events[k]))
      && WithinRate(run, i, k, id, role, |run.events[k].bytes|, run.events[k].now)
  {
    ClockNext(run, k);
    if OfferedAt(run, k, id, role) {
      WithinIsCovered(run, i, k, id, role, |run.events[k].bytes|, run.events[k].now);
      WindowHolds(run, i, k, id, role);
      assert HoldsIn(run, i, k, id, role);
      OfferedForwards(run, i, k, id, role);
    } else if ForwardedAt(run, k, id, role) {
      ForwardedWasOffered(run, k, id, role);
    }
  }
}
