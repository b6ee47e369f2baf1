/** The guarantees of the media relay over whole runs of datagrams and cleanup ticks. */
module MediaRelayTheorems {
  import opened Basics
  import opened RelayWire
  import opened RelayGrants
  import opened ReplayWindows
  import opened TokenBuckets
  import opened MediaRelay
  import opened MediaRelaySafety

  /** A run: the states before and after each event, starting from an empty relay. */
  datatype Run = Run(c: Config, t0: nat, events: seq<Event>, states: seq<Relay>)

  ghost predicate StepAt(run: Run, k: nat)
    requires k < |run.events| && |run.states| == |run.events| + 1
  {
    ClockAt(run, k) <= run.events[k].now && run.states[k + 1] == Step(run.c, run.states[k], run.events[k]).0
  }

  /** The relay's clock before event `k`; it never runs backwards. */
  function ClockAt(run: Run, k: nat): nat
    requires k <= |run.events|
  {
    if k == 0 then run.t0 else run.events[k - 1].now
  }

  ghost predicate IsRun(run: Run) {
    && |run.states| == |run.events| + 1 && run.states[0] == Start(run.c, run.t0)
    && forall k: nat :: k < |run.events| ==> StepAt(run, k)
  }

  // The tables.

  ghost predicate TableOkIn(run: Run, k: nat) {
    k < |run.states| && k <= |run.events| && TableOk(run.c, run.states[k], ClockAt(run, k))
  }

  ghost predicate TableOkAt(run: Run, k: nat) {
    forall n: nat :: n == k ==> TableOkIn(run, n)
  }

  lemma {:induction false} TablesStep(run: Run, k: nat)
    requires IsRun(run) && 0 < k <= |run.events|
    ensures TableOkAt(run, k - 1) ==> TableOkAt(run, k)
  {
    if TableOkAt(run, k - 1) {
      assert TableOkIn(run, k - 1);
      TableFollows(run, k - 1);
    }
  }

  lemma {:induction false} TablesOk(run: Run, k: nat)
    requires IsRun(run) && k <= |run.events|
    ensures TableOkAt(run, k)
  {
    if k == 0 {
      TableStarts(run);
    } else {
      TablesOk(run, k - 1);
      TablesStep(run, k);
    }
  }

  lemma {:induction false} TableStarts(run: Run)
    requires IsRun(run)
    ensures TableOkAt(run, 0)
  {
    assert TableOkIn(run, 0);
  }

  lemma {:induction false} TableAfter(run: Run, k: nat)
    requires IsRun(run) && k < |run.events| && TableOk(run.c, run.states[k], ClockAt(run, k))
    ensures TableOk(run.c, run.states[k + 1], run.events[k].now)
  {
    assert StepAt(run, k);
    TableStep(run.c, run.states[k], ClockAt(run, k), run.events[k]);
  }

  lemma {:induction false} TableFollows(run: Run, k: nat)
    requires IsRun(run) && k < |run.events| && TableOkIn(run, k)
    ensures TableOkIn(run, k + 1)
  {
    TableAfter(run, k);
  }

  /**
   In every reachable state the cleanup queue lists every allocation exactly once, the
   table is within its cap, and every allocation has a bound role and sound limiters.
   */
  lemma {:induction false} TableAlwaysOk(run: Run, k: nat)
    requires IsRun(run) && k <= |run.events|
    ensures TableOk(run.c, run.states[k], ClockAt(run, k))
  {
    TablesOk(run, k);
    assert TableOkIn(run, k);
  }

  ghost predicate Alive(run: Run, k: nat, id: AllocationId) {
    k < |run.states| && id in run.states[k].allocations
  }

  ghost predicate AliveThroughout(run: Run, i: nat, j: nat, id: AllocationId) {
    i <= j && forall k: nat :: i <= k <= j ==> Alive(run, k, id)
  }

  // One allocation, one step.

  /** The datagram carries a bind this allocation's terms were proved for. */
  ghost predicate Binds(c: Config, e: Event, id: AllocationId, a: Allocation, role: byte) {
    && e.Datagram? && Parse(e.bytes).Some?
    && var h := Parse(e.bytes).value;
       && h.kind == BIND && h.allocation == id && h.role == role && h.sessionId == a.sessionId
       && BindTerms(c, e.source, e.bytes, h, e.unix) == Some(a.terms)
  }

  /** The datagram is media the allocation may carry, with this sequence number. */
  ghost predicate Carries(c: Config, e: Event, id: AllocationId, a: Allocation, role: byte, sequence: nat) {
    && e.Datagram? && Parse(e.bytes).Some?
    && var h := Parse(e.bytes).value;
       && h.kind == MEDIA && h.allocation == id && h.role == role
       && Carriable(c, a, e.source, e.bytes, h, e.now, e.unix) == Some(sequence)
  }

  function RoleOf(e: Event): byte {
    if e.Datagram? && Parse(e.bytes).Some? then Parse(e.bytes).value.role else CONTROLLER
  }

  function SequenceOf(e: Event): nat {
    if e.Datagram? && Parse(e.bytes).Some? then
      var h := Parse(e.bytes).value;
      var sequence := MediaSequence(e.bytes[HEADER_BYTES..], h.role, h.sessionId);
      if sequence.Some? then sequence.value else 0
    else 0
  }

  /** The three ways a step may treat an allocation that survives it. */
  ghost predicate Treats(c: Config, e: Event, id: AllocationId, a: Allocation, a': Allocation) {
    var role := RoleOf(e);
    || a' == a
    || (Binds(c, e, id, a, role) && a' == BindRole(a, role, e.source, e.now).0)
    || (Carries(c, e, id, a, role, SequenceOf(e)) && BindingOf(a, role).Some?
        && a' == Spend(a, role, SequenceOf(e), |e.bytes|, e.now).0)
  }

  lemma {:induction false} BindTreats(c: Config, relay: Relay, e: Event, h: Header, id: AllocationId)
    requires e.Datagram? && Parse(e.bytes) == Some(h) && h.kind == BIND
    requires id in relay.allocations
    ensures var relay' := HandleBind(c, relay, e.source, e.bytes, h, e.now, e.unix).0;
      id in relay'.allocations && Treats(c, e, id, relay.allocations[id], relay'.allocations[id])
  {
  }

  lemma {:induction false} MediaTreats(c: Config, relay: Relay, e: Event, h: Header, id: AllocationId)
    requires e.Datagram? && Parse(e.bytes) == Some(h) && h.kind == MEDIA
    requires id in relay.allocations
    ensures var relay' := HandleMedia(c, relay, e.source, e.bytes, h, e.now, e.unix).0;
      id in relay'.allocations && Treats(c, e, id, relay.allocations[id], relay'.allocations[id])
  {
  }

  lemma {:induction false} AllocationStep(c: Config, relay: Relay, clock: nat, e: Event, id: AllocationId)
    requires TableOk(c, relay, clock)
    requires id in relay.allocations && id in Step(c, relay, e).0.allocations
    ensures Treats(c, e, id, relay.allocations[id], Step(c, relay, e).0.allocations[id])
  {
    match e
    case Cleanup(now, unix) =>
      CleanShrinks(c, Table(relay.allocations, relay.cleanupOrder), now, unix, CLEANUP_PER_TICK);
    case Datagram(source, packet, now, unix) =>
      var header := Parse(packet);
      if header.Some? {
        var admitted := AllowSource(c, relay, source.ip, |packet|, now);
        assert admitted.0.allocations == relay.allocations;
        if header.value.kind == BIND {
          BindTreats(c, admitted.0, e, header.value, id);
        } else if header.value.kind == MEDIA {
          MediaTreats(c, admitted.0, e, header.value, id);
        }
      }
  }

  lemma {:induction false} TreatedAt(run: Run, k: nat, id: AllocationId)
    requires IsRun(run) && k < |run.events| && Alive(run, k, id) && Alive(run, k + 1, id)
    ensures Treats(run.c, run.events[k], id, run.states[k].allocations[id], run.states[k + 1].allocations[id])
  {
    TableAlwaysOk(run, k);
    assert StepAt(run, k);
    AllocationStep(run.c, run.states[k], ClockAt(run, k), run.events[k], id);
  }

  ghost predicate SameLifetime(a: Allocation, a': Allocation) {
    && a'.sessionId == a.sessionId && a'.terms == a.terms && a'.created == a.created
    && (a.controller.Some? ==> a'.controller.Some?) && (a.target.Some? ==> a'.target.Some?)
  }

  lemma {:induction false} TreatsSameLifetime(c: Config, e: Event, id: AllocationId, a: Allocation, a': Allocation)
    requires Treats(c, e, id, a, a')
    ensures SameLifetime(a, a')
  {
  }

  /** Through its whole lifetime an allocation keeps its session and terms, and a bound role stays bound. */
  lemma {:induction false} TermsFixed(run: Run, i: nat, j: nat, id: AllocationId)
    requires IsRun(run) && j <= |run.events| && AliveThroughout(run, i, j, id)
    ensures Alive(run, i, id) && Alive(run, j, id)
    ensures SameLifetime(run.states[i].allocations[id], run.states[j].allocations[id])
    decreases j
  {
    assert Alive(run, j, id) && Alive(run, i, id);
    if i < j {
      TermsFixed(run, i, j - 1, id);
      TreatedAt(run, j - 1, id);
      TreatsSameLifetime(run.c, run.events[j - 1], id, run.states[j - 1].allocations[id],
                         run.states[j].allocations[id]);
    }
  }

  // Where bindings come from.

  /** The event put this address into this role, with a fresh cookie and a signed grant for it. */
  ghost predicate Proves(c: Config, e: Event, id: AllocationId, a: Allocation, role: byte) {
    Binds(c, e, id, a, role) && BindingOf(a, role).Some? && e.source == BindingOf(a, role).value.source
  }

  lemma {:induction false} FirstBind(c: Config, relay: Relay, clock: nat, e: Event, id: AllocationId, role: byte)
    requires TableOk(c, relay, clock) && id !in relay.allocations && id in Step(c, relay, e).0.allocations
    requires role in {CONTROLLER, TARGET} && BindingOf(Step(c, relay, e).0.allocations[id], role).Some?
    ensures Proves(c, e, id, Step(c, relay, e).0.allocations[id], role)
  {
    match e
    case Cleanup(now, unix) =>
      CleanShrinks(c, Table(relay.allocations, relay.cleanupOrder), now, unix, CLEANUP_PER_TICK);
    case Datagram(source, packet, now, unix) =>
      var admitted := AllowSource(c, relay, source.ip, |packet|, now);
      assert admitted.0.allocations == relay.allocations;
  }

  lemma {:induction false} BindMovesOne(a: Allocation, boundRole: byte, source: Address, now: nat, role: byte)
    requires role in {CONTROLLER, TARGET} && boundRole in {CONTROLLER, TARGET}
    requires BindingOf(BindRole(a, boundRole, source, now).0, role).Some?
    ensures var address := BindingOf(BindRole(a, boundRole, source, now).0, role).value.source;
      || (boundRole == role && address == source)
      || (BindingOf(a, role).Some? && BindingOf(a, role).value.source == address)
  {
  }

  lemma {:induction false} SpendMovesNone(a: Allocation, sender: byte, sequence: nat, size: nat, now: nat, role: byte)
    requires role in {CONTROLLER, TARGET} && BindingOf(a, sender).Some?
    requires BindingOf(Spend(a, sender, sequence, size, now).0, role).Some?
    ensures BindingOf(a, role).Some?
    ensures BindingOf(Spend(a, sender, sequence, size, now).0, role).value.source == BindingOf(a, role).value.source
  {
  }

  lemma {:induction false} ProofCarriesOver(
    c: Config, e: Event, id: AllocationId, a: Allocation, a': Allocation, role: byte)
    requires Proves(c, e, id, a, role) && SameLifetime(a, a') && BindingOf(a', role).Some?
    requires BindingOf(a, role).value.source == BindingOf(a', role).value.source
    ensures Proves(c, e, id, a', role)
  {
  }

  /** A step either proves the role's address itself or leaves it alone. */
  lemma {:induction false} LaterBind(c: Config, e: Event, id: AllocationId, a: Allocation, a': Allocation, role: byte)
    requires Treats(c, e, id, a, a') && role in {CONTROLLER, TARGET} && BindingOf(a', role).Some?
    ensures Proves(c, e, id, a', role) ||
            (BindingOf(a, role).Some? && BindingOf(a, role).value.source == BindingOf(a', role).value.source)
  {
    TreatsSameLifetime(c, e, id, a, a');
    if a' != a {
      if Binds(c, e, id, a, RoleOf(e)) && a' == BindRole(a, RoleOf(e), e.source, e.now).0 {
        BindMovesOne(a, RoleOf(e), e.source, e.now, role);
      } else {
        SpendMovesNone(a, RoleOf(e), SequenceOf(e), |e.bytes|, e.now, role);
      }
    }
  }

  lemma {:induction false} ProvenAt(run: Run, k: nat, id: AllocationId, role: byte)
    requires IsRun(run) && k < |run.events| && Alive(run, k + 1, id) && role in {CONTROLLER, TARGET}
    requires BindingOf(run.states[k + 1].allocations[id], role).Some?
    ensures var a' := run.states[k + 1].allocations[id];
      || Proves(run.c, run.events[k], id, a', role)
      || (Alive(run, k, id) &&
          var a := run.states[k].allocations[id];
          && SameLifetime(a, a') && BindingOf(a, role).Some?
          && BindingOf(a, role).value.source == BindingOf(a', role).value.source)
  {
    if Alive(run, k, id) {
      TreatedAt(run, k, id);
      TreatsSameLifetime(run.c, run.events[k], id, run.states[k].allocations[id], run.states[k + 1].allocations[id]);
      LaterBind(run.c, run.events[k], id, run.states[k].allocations[id], run.states[k + 1].allocations[id], role);
    } else {
      TableAlwaysOk(run, k);
      assert StepAt(run, k);
      FirstBind(run.c, run.states[k], ClockAt(run, k), run.events[k], id, role);
    }
  }

  /**
   Every address bound to a role got there by a bind datagram from that very address,
   with a fresh cookie and a signed grant for that role, allocation and terms.
   */
  lemma {:induction false} BindingsAreProven(run: Run, k: nat, id: AllocationId, role: byte) returns (j: nat)
    requires IsRun(run) && k <= |run.events| && Alive(run, k, id) && role in {CONTROLLER, TARGET}
    requires BindingOf(run.states[k].allocations[id], role).Some?
    ensures j < k && Proves(run.c, run.events[j], id, run.states[k].allocations[id], role)
  {
    assert k > 0;
    ProvenAt(run, k - 1, id, role);
    j := k - 1;
    if !Proves(run.c, run.events[j], id, run.states[k].allocations[id], role) {
      j := BindingsAreProven(run, k - 1, id, role);
      ProofCarriesOver(run.c, run.events[j], id, run.states[k - 1].allocations[id], run.states[k].allocations[id],
                       role);
    }
  }

  // Forwarded media.

  /** What the datagram says at the place where a media frame has its sequence number. */
  function Stamp(e: Event): nat {
    if e.Datagram? && |e.bytes| >= 54 then FromLe(e.bytes[46..54]) else 0
  }

  lemma {:induction false} StampIsSequence(e: Event)
    requires e.Datagram? && Parse(e.bytes).Some?
    requires var h := Parse(e.bytes).value; MediaSequence(e.bytes[HEADER_BYTES..], h.role, h.sessionId).Some?
    ensures Stamp(e) == SequenceOf(e)
  {
    assert e.bytes[HEADER_BYTES..][14..22] == e.bytes[46..54];
  }

  /** A media datagram passed on for this role of this allocation. */
  datatype Forward = Forward(id: AllocationId, role: byte, sequence: nat, size: nat)

  function Forwarding(c: Config, relay: Relay, e: Event): Option<Forward> {
    if e.Datagram? && Parse(e.bytes).Some? && Parse(e.bytes).value.kind == MEDIA && Step(c, relay, e).1.Some?
    then Some(Forward(Parse(e.bytes).value.allocation, RoleOf(e), Stamp(e), |e.bytes|))
    else None
  }

  /**
   Media goes from the address now bound to the sending role to the address now bound to
   the opposite role of the same live allocation, unchanged but for the outer header.
   */
  lemma {:induction false} MediaStaysInItsAllocation(c: Config, relay: Relay, e: Event)
    requires Forwarding(c, relay, e).Some?
    ensures var f := Forwarding(c, relay, e).value; var out := Step(c, relay, e).1.value;
      && f.id in relay.allocations && f.role in {CONTROLLER, TARGET}
      && var a := relay.allocations[f.id];
         && BindingOf(a, f.role).Some? && BindingOf(a, Opposite(f.role)).Some?
         && e.source == BindingOf(a, f.role).value.source
         && out == Outgoing(BindingOf(a, Opposite(f.role)).value.source, e.bytes[HEADER_BYTES..])
         && !Expired(c, a, e.now, e.unix) && |e.bytes| <= a.terms.maxDatagram && f.sequence > 0
  {
    ForwardingSpends(c, relay, e);
  }

  /** A forwarded datagram was carriable and paid for. */
  lemma {:induction false} ForwardingSpends(c: Config, relay: Relay, e: Event)
    requires Forwarding(c, relay, e).Some?
    ensures var f := Forwarding(c, relay, e).value; var relay' := Step(c, relay, e).0;
      && f.id in relay.allocations && f.id in relay'.allocations
      && Carries(c, e, f.id, relay.allocations[f.id], f.role, f.sequence)
      && BindingOf(relay.allocations[f.id], f.role).Some?
      && Spend(relay.allocations[f.id], f.role, f.sequence, f.size, e.now) == (relay'.allocations[f.id], true)
  {
    var admitted := AllowSource(c, relay, e.source.ip, |e.bytes|, e.now);
    assert admitted.0.allocations == relay.allocations;
    StampIsSequence(e);
  }

  // Each sequence number at most once.

  ghost predicate SpentIn(a: Allocation, role: byte, n: nat) {
    BindingOf(a, role).Some? && Spent(BindingOf(a, role).value.replay, n)
  }

  lemma {:induction false} BindKeepsSpent(a: Allocation, boundRole: byte, source: Address, now: nat, role: byte, n: nat)
    requires SpentIn(a, role, n)
    ensures SpentIn(BindRole(a, boundRole, source, now).0, role, n)
  {
  }

  lemma {:induction false} SpendKeepsSpent(
    a: Allocation, sender: byte, sequence: nat, size: nat, now: nat, role: byte, n: nat)
    requires SpentIn(a, role, n) && BindingOf(a, sender).Some?
    ensures SpentIn(Spend(a, sender, sequence, size, now).0, role, n)
  {
    StaysSpent(BindingOf(a, role).value.replay, n, sequence);
  }

  lemma {:induction false} TreatsKeepSpent(
    c: Config, e: Event, id: AllocationId, a: Allocation, a': Allocation, role: byte, n: nat)
    requires Treats(c, e, id, a, a') && SpentIn(a, role, n)
    ensures SpentIn(a', role, n)
  {
    if a' != a {
      if a' == BindRole(a, RoleOf(e), e.source, e.now).0 {
        BindKeepsSpent(a, RoleOf(e), e.source, e.now, role, n);
      } else {
        SpendKeepsSpent(a, RoleOf(e), SequenceOf(e), |e.bytes|, e.now, role, n);
      }
    }
  }

  lemma {:induction false} SpentForever(run: Run, i: nat, j: nat, id: AllocationId, role: byte, n: nat)
    requires IsRun(run) && j <= |run.events| && AliveThroughout(run, i, j, id)
    requires Alive(run, i, id) && SpentIn(run.states[i].allocations[id], role, n)
    ensures Alive(run, j, id) && SpentIn(run.states[j].allocations[id], role, n)
    decreases j
  {
    assert Alive(run, j, id);
    if i < j {
      SpentForever(run, i, j - 1, id, role, n);
      TreatedAt(run, j - 1, id);
      TreatsKeepSpent(run.c, run.events[j - 1], id, run.states[j - 1].allocations[id], run.states[j].allocations[id],
                      role, n);
    }
  }

  /** Event `k` passes this media datagram on. */
  ghost predicate ForwardsAt(run: Run, k: nat, f: Forward) {
    k < |run.events| && k < |run.states| && Forwarding(run.c, run.states[k], run.events[k]) == Some(f)
  }

  lemma {:induction false} ForwardingSpendsSequence(run: Run, k: nat, f: Forward)
    requires IsRun(run) && ForwardsAt(run, k, f)
    ensures Alive(run, k, f.id) && !SpentIn(run.states[k].allocations[f.id], f.role, f.sequence)
    ensures Alive(run, k + 1, f.id) && SpentIn(run.states[k + 1].allocations[f.id], f.role, f.sequence)
  {
    assert StepAt(run, k);
    ForwardingSpends(run.c, run.states[k], run.events[k]);
    StaysSpent(BindingOf(run.states[k].allocations[f.id], f.role).value.replay, f.sequence, f.sequence);
  }

  lemma {:induction false} ForwardedBefore(run: Run, i: nat, j: nat, f: Forward)
    requires IsRun(run) && ForwardsAt(run, i, f) && i < j <= |run.events| && AliveThroughout(run, i, j, f.id)
    ensures Alive(run, j, f.id) && SpentIn(run.states[j].allocations[f.id], f.role, f.sequence)
  {
    ForwardingSpendsSequence(run, i, f);
    assert AliveThroughout(run, i + 1, j, f.id);
    SpentForever(run, i + 1, j, f.id, f.role, f.sequence);
  }

  /**
   In one lifetime of an allocation, however often its endpoints move to other addresses, no
   sequence number of a role is forwarded twice: those eight bytes differ from datagram to datagram.
   */
  lemma {:induction false} SequenceForwardedOnce(run: Run, i: nat, j: nat, f: Forward, g: Forward)
    requires IsRun(run) && i < j && ForwardsAt(run, i, f) && ForwardsAt(run, j, g)
    requires f.id == g.id && f.role == g.role && AliveThroughout(run, i, j, f.id)
    ensures run.events[i].Datagram? && run.events[j].Datagram? && |run.events[i].bytes| >= 121
    ensures |run.events[j].bytes| >= 121
    ensures FromLe(run.events[i].bytes[46..54]) != FromLe(run.events[j].bytes[46..54])
  {
    ForwardingSpends(run.c, run.states[i], run.events[i]);
    ForwardingSpends(run.c, run.states[j], run.events[j]);
    ForwardedBefore(run, i, j, f);
    ForwardingSpendsSequence(run, j, g);
  }

  // Rate.

  /** What the role may still send at once; all of the burst while it is not bound. */
  function Budget(a: Allocation, role: byte, now: nat): real {
    if BindingOf(a, role).None? then WireBurst(a.terms.maxBitrateKbps) as real
    else Credit(BindingOf(a, role).value.limiter, now)
  }

  function Flow(a: Allocation, ms: nat): real {
    Inflow(WireRate(a.terms.maxBitrateKbps), ms)
  }

  lemma {:induction false} BindKeepsBudget(
    a: Allocation, role: byte, boundRole: byte, source: Address, clock: nat, now: nat)
    requires AllocationOk(a, clock) && clock <= now
    ensures Budget(BindRole(a, boundRole, source, now).0, role, now) <= Budget(a, role, clock) + Flow(a, now - clock)
  {
    RoleBucketOk(a.terms, now);
    QuietBudget(a, role, clock, now);
  }

  lemma {:induction false} QuietBudget(a: Allocation, role: byte, clock: nat, now: nat)
    requires AllocationOk(a, clock) && clock <= now
    ensures Budget(a, role, now) <= Budget(a, role, clock) + Flow(a, now - clock)
  {
    InflowPositive(WireRate(a.terms.maxBitrateKbps), now - clock);
    if BindingOf(a, role).Some? {
      CreditGrows(BindingOf(a, role).value.limiter, clock, now);
    }
  }

  lemma {:induction false} SpendPays(
    a: Allocation, role: byte, sender: byte, sequence: nat, size: nat, clock: nat, now: nat)
    requires AllocationOk(a, clock) && clock <= now && BindingOf(a, sender).Some?
    requires role in {CONTROLLER, TARGET} && sender in {CONTROLLER, TARGET}
    ensures var spent := Spend(a, sender, sequence, size, now);
      Budget(spent.0, role, now) + (if spent.1 && role == sender then size as real else 0.0)
        <= Budget(a, role, clock) + Flow(a, now - clock)
  {
    QuietBudget(a, role, clock, now);
    AllowPays(BindingOf(a, sender).value.limiter, size, clock, now);
  }

  /** Bytes event `k` forwards for the role. */
  function SentAt(run: Run, k: nat, id: AllocationId, role: byte): nat
    requires k < |run.events| && k < |run.states|
  {
    var f := Forwarding(run.c, run.states[k], run.events[k]);
    if f.Some? && f.value.id == id && f.value.role == role then f.value.size else 0
  }

  function SentBetween(run: Run, i: nat, j: nat, id: AllocationId, role: byte): nat
    requires i <= j <= |run.events| && j <= |run.states|
    decreases j
  {
    if i == j then 0 else SentBetween(run, i, j - 1, id, role) + SentAt(run, j - 1, id, role)
  }

  /** What the role sent is covered by its budget before and what flowed in. */
  ghost predicate Pays(a: Allocation, a': Allocation, role: byte, clock: nat, now: nat, sent: nat) {
    && clock <= now && a'.terms == a.terms
    && Budget(a', role, now) + sent as real <= Budget(a, role, clock) + Flow(a, now - clock)
  }

  ghost predicate PaidWith(run: Run, k: nat, id: AllocationId, role: byte, sent: nat) {
    && k < |run.events| && Alive(run, k, id) && Alive(run, k + 1, id)
    && Pays(run.states[k].allocations[id], run.states[k + 1].allocations[id], role, ClockAt(run, k),
            ClockAt(run, k + 1), sent)
  }

  lemma {:induction false} AliveOk(run: Run, k: nat, id: AllocationId)
    requires IsRun(run) && k <= |run.events| && Alive(run, k, id)
    ensures AllocationOk(run.states[k].allocations[id], ClockAt(run, k))
  {
    TableAlwaysOk(run, k);
  }

  lemma {:induction false} ClockNext(run: Run, k: nat)
    requires IsRun(run) && k < |run.events|
    ensures ClockAt(run, k) <= ClockAt(run, k + 1) == run.events[k].now
  {
    assert StepAt(run, k);
  }

  lemma {:induction false} SentByForwarding(run: Run, k: nat)
    requires IsRun(run) && k < |run.events| && Forwarding(run.c, run.states[k], run.events[k]).Some?
    ensures var f := Forwarding(run.c, run.states[k], run.events[k]).value;
      && f.role in {CONTROLLER, TARGET} && Alive(run, k, f.id) && Alive(run, k + 1, f.id)
      && BindingOf(run.states[k].allocations[f.id], f.role).Some?
      && Spend(run.states[k].allocations[f.id], f.role, f.sequence, f.size, run.events[k].now)
           == (run.states[k + 1].allocations[f.id], true)
  {
    assert StepAt(run, k);
    ForwardingSpends(run.c, run.states[k], run.events[k]);
  }

  lemma {:induction false} SentPays(run: Run, k: nat, f: Forward)
    requires IsRun(run) && ForwardsAt(run, k, f)
    ensures PaidWith(run, k, f.id, f.role, f.size)
  {
    SentByForwarding(run, k);
    AliveOk(run, k, f.id);
    ClockNext(run, k);
    var a, clock, now := run.states[k].allocations[f.id], ClockAt(run, k), run.events[k].now;
    SpendPays(a, f.role, f.role, f.sequence, f.size, clock, now);
    SpendSame(a, f.role, f.sequence, f.size, now);
  }

  lemma {:induction false} SpendSame(a: Allocation, role: byte, sequence: nat, size: nat, now: nat)
    requires BindingOf(a, role).Some?
    ensures Spend(a, role, sequence, size, now).0.terms == a.terms
  {
  }

  lemma {:induction false} UnsentPays(run: Run, k: nat, id: AllocationId, role: byte)
    requires IsRun(run) && k < |run.events| && Alive(run, k, id) && Alive(run, k + 1, id)
    requires role in {CONTROLLER, TARGET}
    ensures PaidWith(run, k, id, role, 0)
  {
    var a, a' := run.states[k].allocations[id], run.states[k + 1].allocations[id];
    AliveOk(run, k, id);
    ClockNext(run, k);
    TreatedAt(run, k, id);
    UnsentBudget(run.c, run.events[k], id, a, a', role, ClockAt(run, k));
    TreatsSameLifetime(run.c, run.events[k], id, a, a');
  }

  lemma {:induction false} SentPaid(run: Run, k: nat, id: AllocationId, role: byte)
    requires IsRun(run) && k < |run.events| && Alive(run, k, id) && Alive(run, k + 1, id)
    requires role in {CONTROLLER, TARGET}
    ensures PaidWith(run, k, id, role, SentAt(run, k, id, role))
  {
    var f := Forwarding(run.c, run.states[k], run.events[k]);
    if f.Some? && f.value.id == id && f.value.role == role {
      SentPays(run, k, f.value);
    } else {
      UnsentPays(run, k, id, role);
    }
  }

  lemma {:induction false} UnsentBudget(
    c: Config, e: Event, id: AllocationId, a: Allocation, a': Allocation, role: byte, clock: nat)
    requires Treats(c, e, id, a, a') && AllocationOk(a, clock) && clock <= e.now && role in {CONTROLLER, TARGET}
    ensures Budget(a', role, e.now) <= Budget(a, role, clock) + Flow(a, e.now - clock)
  {
    if a' == a {
      QuietBudget(a, role, clock, e.now);
    } else if a' == BindRole(a, RoleOf(e), e.source, e.now).0 {
      BindKeepsBudget(a, role, RoleOf(e), e.source, clock, e.now);
    } else {
      SpendPays(a, role, RoleOf(e), SequenceOf(e), |e.bytes|, clock, e.now);
    }
  }

  lemma {:induction false} SentTelescopes(run: Run, i: nat, j: nat, id: AllocationId, role: byte)
    requires IsRun(run) && j <= |run.events| && AliveThroughout(run, i, j, id) && role in {CONTROLLER, TARGET}
    ensures Alive(run, i, id) && Alive(run, j, id) && ClockAt(run, i) <= ClockAt(run, j)
    ensures var a, a' := run.states[i].allocations[id], run.states[j].allocations[id];
      && a'.terms == a.terms
      && Budget(a', role, ClockAt(run, j)) + SentBetween(run, i, j, id, role) as real
           <= Budget(a, role, ClockAt(run, i)) + Flow(a, ClockAt(run, j) - ClockAt(run, i))
    decreases j
  {
    assert Alive(run, j, id) && Alive(run, i, id);
    if i < j {
      var a := run.states[i].allocations[id];
      SentTelescopes(run, i, j - 1, id, role);
      assert Alive(run, j - 1, id);
      SentPaid(run, j - 1, id, role);
      InflowAdds(WireRate(a.terms.maxBitrateKbps), ClockAt(run, j - 1) - ClockAt(run, i),
                 ClockAt(run, j) - ClockAt(run, j - 1));
    } else {
      assert Flow(run.states[i].allocations[id], 0) == 0.0;
    }
  }

  lemma {:induction false} BudgetBounds(a: Allocation, role: byte, clock: nat)
    requires AllocationOk(a, clock)
    ensures 0.0 <= Budget(a, role, clock) <= WireBurst(a.terms.maxBitrateKbps) as real
  {
    if BindingOf(a, role).Some? {
      var b := BindingOf(a, role).value.limiter;
      InflowPositive(b.rate, Elapsed(clock, b.updated));
    }
  }

  /**
   Between any two instants of its lifetime, one role of an allocation sends at most the
   burst plus the wire rate times the elapsed time, across any number of rebinds.
   */
  lemma {:induction false} SentAtMostBurstPlusRate(run: Run, i: nat, j: nat, id: AllocationId, role: byte)
    requires IsRun(run) && j <= |run.events| && AliveThroughout(run, i, j, id) && role in {CONTROLLER, TARGET}
    ensures Alive(run, i, id) && ClockAt(run, i) <= ClockAt(run, j)
    ensures var kbps := run.states[i].allocations[id].terms.maxBitrateKbps;
      SentBetween(run, i, j, id, role) as real
        <= WireBurst(kbps) as real + Inflow(WireRate(kbps), ClockAt(run, j) - ClockAt(run, i))
  {
    SentTelescopes(run, i, j, id, role);
    TableAlwaysOk(run, i);
    TableAlwaysOk(run, j);
    BudgetBounds(run.states[i].allocations[id], role, ClockAt(run, i));
    BudgetBounds(run.states[j].allocations[id], role, ClockAt(run, j));
  }

  // Expiry.

  /** Past its absolute end: the grants have expired, or it is over 300 seconds old. */
  predicate Over(a: Allocation, now: nat, unix: nat) {
    a.terms.expiresAt <= unix || Elapsed(now, a.created) > 1000 * MAX_GRANT_TTL_SECONDS
  }

  lemma {:induction false} OverBind(c: Config, relay: Relay, e: Event, h: Header)
    requires e.Datagram? && h.allocation in relay.allocations && Over(relay.allocations[h.allocation], e.now, e.unix)
    ensures var (relay', out) := HandleBind(c, relay, e.source, e.bytes, h, e.now, e.unix);
      && h.allocation in relay'.allocations && Over(relay'.allocations[h.allocation], e.now, e.unix)
      && (relay.allocations[h.allocation].terms.expiresAt <= e.unix ==> relay' == relay && out == None)
  {
    if BindTerms(c, e.source, e.bytes, h, e.unix).Some? {
      TermsInRange(c, e.source, e.bytes, h, e.unix);
    }
  }

  lemma {:induction false} OverMedia(c: Config, relay: Relay, e: Event, h: Header)
    requires e.Datagram? && |e.bytes| >= HEADER_BYTES
    requires h.allocation in relay.allocations && Over(relay.allocations[h.allocation], e.now, e.unix)
    ensures HandleMedia(c, relay, e.source, e.bytes, h, e.now, e.unix) == (relay, None)
  {
  }

  /**
   Past its absolute end nothing brings an allocation back: its media is dropped, a bind leaves
   it as much past its end as it was, and once its grants have expired has no effect at all.
   */
  lemma {:induction false} ExpiredCannotRevive(c: Config, relay: Relay, e: Event, id: AllocationId)
    requires e.Datagram? && Parse(e.bytes).Some? && Parse(e.bytes).value.allocation == id
    requires id in relay.allocations && Over(relay.allocations[id], e.now, e.unix)
    ensures var (relay', out) := Step(c, relay, e); var kind := Parse(e.bytes).value.kind;
      && id in relay'.allocations && Over(relay'.allocations[id], e.now, e.unix)
      && (kind == MEDIA || (kind == BIND && relay.allocations[id].terms.expiresAt <= e.unix) ==>
            out == None && relay'.allocations == relay.allocations)
  {
    var h := Parse(e.bytes).value;
    var admitted := AllowSource(c, relay, e.source.ip, |e.bytes|, e.now);
    assert admitted.0.allocations == relay.allocations && admitted.0.cleanupOrder == relay.cleanupOrder;
    OverBind(c, admitted.0, e, h);
    OverMedia(c, admitted.0, e, h);
  }

  function Ticks(events: seq<Event>, i: nat, j: nat): nat
    requires i <= j <= |events|
    decreases j
  {
    if i == j then 0 else Ticks(events, i, j - 1) + if events[j - 1].Cleanup? then 1 else 0
  }

  lemma {:induction false} DatagramKeepsPlace(c: Config, relay: Relay, e: Event, position: nat, id: AllocationId)
    requires e.Datagram? && StandsAt(relay.cleanupOrder, position, id)
    ensures StandsAt(Step(c, relay, e).0.cleanupOrder, position, id)
  {
    if Parse(e.bytes).Some? {
      var admitted := AllowSource(c, relay, e.source.ip, |e.bytes|, e.now);
      assert admitted.0.cleanupOrder == relay.cleanupOrder;
    }
  }

  lemma {:induction false} ClockGrows(run: Run, i: nat, j: nat)
    requires IsRun(run) && i <= j <= |run.events|
    ensures ClockAt(run, i) <= ClockAt(run, j)
    decreases j
  {
    if i < j {
      ClockGrows(run, i, j - 1);
      assert StepAt(run, j - 1);
    }
  }

  // No amplification.

  function Received(e: Event): nat {
    if e.Datagram? then |e.bytes| else 0
  }

  function Emitted(c: Config, relay: Relay, e: Event): nat {
    var out := Step(c, relay, e).1;
    if out.Some? then |out.value.bytes| else 0
  }

  lemma {:induction false} EmitsAtMostReceived(c: Config, relay: Relay, e: Event)
    ensures Emitted(c, relay, e) <= Received(e)
  {
    if e.Datagram? && Parse(e.bytes).Some? {
      EncodeLayout(Parse(e.bytes).value, HELLO_REPLY, []);
      EncodeLayout(Parse(e.bytes).value, BIND_REPLY, []);
    }
  }

  function TotalReceived(run: Run, k: nat): nat
    requires k <= |run.events|
  {
    if k == 0 then 0 else TotalReceived(run, k - 1) + Received(run.events[k - 1])
  }

  function TotalEmitted(run: Run, k: nat): nat
    requires k <= |run.events| && k <= |run.states|
  {
    if k == 0 then 0 else TotalEmitted(run, k - 1) + Emitted(run.c, run.states[k - 1], run.events[k - 1])
  }

  /** Over any run the relay never sends more bytes than it received. */
  lemma {:induction false} NoAmplification(run: Run, k: nat)
    requires IsRun(run) && k <= |run.events|
    ensures TotalEmitted(run, k) <= TotalReceived(run, k)
    decreases k
  {
    if k > 0 {
      NoAmplification(run, k - 1);
      EmitsAtMostReceived(run.c, run.states[k - 1], run.events[k - 1]);
    }
  }
}
