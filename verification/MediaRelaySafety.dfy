/** What one datagram or cleanup tick keeps. */
module MediaRelaySafety {
  import opened Basics
  import opened RelayWire
  import opened RelayGrants
  import opened TokenBuckets
  import opened MediaRelay

  // The cleanup queue enumerates the table.

  ghost predicate NoDuplicates(order: seq<AllocationId>) {
    forall i, j :: 0 <= i < j < |order| ==> order[i] != order[j]
  }

  ghost predicate Listed(order: seq<AllocationId>, id: AllocationId) {
    exists i :: StandsAt(order, i, id)
  }

  ghost predicate StandsAt(order: seq<AllocationId>, position: nat, id: AllocationId) {
    position < |order| && order[position] == id
  }

  /** The queue lists every allocation exactly once and nothing else. */
  ghost predicate Enumerates(order: seq<AllocationId>, allocations: Allocations) {
    && NoDuplicates(order) && (forall i :: 0 <= i < |order| ==> order[i] in allocations)
    && (forall id :: id in allocations ==> Listed(order, id))
  }

  // Allocations.

  ghost predicate LimiterOk(b: Bucket, terms: GrantInvariant, clock: nat) {
    && Sound(b) && b.updated <= clock && b.rate == WireRate(terms.maxBitrateKbps)
    && b.capacity == WireBurst(terms.maxBitrateKbps)
  }

  ghost predicate AllocationOk(a: Allocation, clock: nat) {
    && (a.controller.Some? || a.target.Some?)
    && MIN_BITRATE_KBPS <= a.terms.maxBitrateKbps <= MAX_BITRATE_KBPS
    && (a.controller.Some? ==> LimiterOk(a.controller.value.limiter, a.terms, clock))
    && (a.target.Some? ==> LimiterOk(a.target.value.limiter, a.terms, clock))
  }

  ghost predicate TableOk(c: Config, relay: Relay, clock: nat) {
    && Enumerates(relay.cleanupOrder, relay.allocations)
    && |relay.allocations| <= c.maxAllocations
    && forall id :: id in relay.allocations ==> AllocationOk(relay.allocations[id], clock)
  }

  lemma {:induction false} TermsInRange(c: Config, source: Address, packet: Bytes, h: Header, unix: nat)
    requires BindTerms(c, source, packet, h, unix).Some?
    ensures var terms := BindTerms(c, source, packet, h, unix).value;
      unix < terms.expiresAt && MIN_BITRATE_KBPS <= terms.maxBitrateKbps <= MAX_BITRATE_KBPS
  {
  }

  lemma {:induction false} RoleBucketOk(terms: GrantInvariant, now: nat)
    requires MIN_BITRATE_KBPS <= terms.maxBitrateKbps
    ensures LimiterOk(RoleBucket(terms.maxBitrateKbps, now), terms, now)
    ensures Credit(RoleBucket(terms.maxBitrateKbps, now), now) == WireBurst(terms.maxBitrateKbps) as real
  {
    NewBucketSound(WireRate(terms.maxBitrateKbps), WireBurst(terms.maxBitrateKbps), now);
  }

  lemma {:induction false} BindRoleOk(a: Allocation, role: byte, source: Address, clock: nat, now: nat)
    requires clock <= now && MIN_BITRATE_KBPS <= a.terms.maxBitrateKbps <= MAX_BITRATE_KBPS
    requires AllocationOk(a, clock) || (a.controller.None? && a.target.None?)
    ensures AllocationOk(BindRole(a, role, source, now).0, now)
  {
    RoleBucketOk(a.terms, now);
  }

  lemma {:induction false} SpendOk(a: Allocation, role: byte, sequence: nat, size: nat, clock: nat, now: nat)
    requires AllocationOk(a, clock) && BindingOf(a, role).Some? && clock <= now
    ensures AllocationOk(Spend(a, role, sequence, size, now).0, now)
  {
    AllowPays(BindingOf(a, role).value.limiter, size, clock, now);
  }

  lemma {:induction false} AllocationLater(a: Allocation, clock: nat, now: nat)
    requires AllocationOk(a, clock) && clock <= now
    ensures AllocationOk(a, now)
  {
  }

  ghost predicate AllOk(allocations: Allocations, clock: nat) {
    forall id :: id in allocations ==> AllocationOk(allocations[id], clock)
  }

  lemma {:induction false} PutOk(allocations: Allocations, id: AllocationId, a: Allocation, clock: nat, now: nat)
    requires AllOk(allocations, clock) && clock <= now && AllocationOk(a, now)
    ensures AllOk(allocations[id := a], now) && AllOk(allocations, now)
  {
    forall other | other in allocations ensures AllocationOk(allocations[other], now) {
      AllocationLater(allocations[other], clock, now);
    }
  }

  lemma {:induction false} EnumeratesPush(
    order: seq<AllocationId>, allocations: Allocations, id: AllocationId, a: Allocation)
    requires Enumerates(order, allocations)
    ensures id in allocations ==> Enumerates(order, allocations[id := a])
    ensures id !in allocations ==> Enumerates(order + [id], allocations[id := a])
  {
    if id !in allocations {
      forall other | other in allocations[id := a] ensures Listed(order + [id], other) {
        if other == id {
          assert StandsAt(order + [id], |order|, id);
        } else {
          var i :| StandsAt(order, i, other);
          assert StandsAt(order + [id], i, other);
        }
      }
    }
  }

  lemma {:induction false} BindOk(
    c: Config, relay: Relay, source: Address, packet: Bytes, h: Header, clock: nat, now: nat, unix: nat)
    requires TableOk(c, relay, clock) && clock <= now
    ensures TableOk(c, HandleBind(c, relay, source, packet, h, now, unix).0, now)
  {
    var id := h.allocation;
    var terms := BindTerms(c, source, packet, h, unix);
    if terms.Some? {
      TermsInRange(c, source, packet, h, unix);
      var current := if id in relay.allocations then relay.allocations[id]
          else NewAllocation(h.sessionId, terms.value, now);
      BindRoleOk(current, h.role, source, clock, now);
      var bound := BindRole(current, h.role, source, now).0;
      EnumeratesPush(relay.cleanupOrder, relay.allocations, id, bound);
      PutOk(relay.allocations, id, bound, clock, now);
    } else {
      Quiet(relay.allocations, clock, now);
    }
  }

  lemma {:induction false} Quiet(allocations: Allocations, clock: nat, now: nat)
    requires AllOk(allocations, clock) && clock <= now
    ensures AllOk(allocations, now)
  {
    forall id | id in allocations ensures AllocationOk(allocations[id], now) {
      AllocationLater(allocations[id], clock, now);
    }
  }

  lemma {:induction false} MediaOk(
    c: Config, relay: Relay, source: Address, packet: Bytes, h: Header, clock: nat, now: nat, unix: nat)
    requires TableOk(c, relay, clock) && clock <= now && |packet| >= HEADER_BYTES
    ensures TableOk(c, HandleMedia(c, relay, source, packet, h, now, unix).0, now)
  {
    var id := h.allocation;
    Quiet(relay.allocations, clock, now);
    if id in relay.allocations {
      var a := relay.allocations[id];
      var sequence := Carriable(c, a, source, packet, h, now, unix);
      if sequence.Some? {
        SpendOk(a, h.role, sequence.value, |packet|, clock, now);
        var spent := Spend(a, h.role, sequence.value, |packet|, now).0;
        EnumeratesPush(relay.cleanupOrder, relay.allocations, id, spent);
        PutOk(relay.allocations, id, spent, clock, now);
      }
    }
  }

  // Cleanup.

  /** Nothing but removals, and the queue still enumerates the table. */
  ghost predicate Shrinks(before: Table, after: Table) {
    && Enumerates(after.order, after.allocations) && |after.allocations| <= |before.allocations|
    && forall id :: id in after.allocations ==>
         id in before.allocations && after.allocations[id] == before.allocations[id]
  }

  lemma {:induction false} CleanOneLists(c: Config, t: Table, now: nat, unix: nat, id: AllocationId)
    requires Enumerates(t.order, t.allocations) && id in CleanOne(c, t, now, unix).allocations
    ensures Listed(CleanOne(c, t, now, unix).order, id)
  {
    var next := CleanOne(c, t, now, unix);
    var i: nat :| StandsAt(t.order, i, id);
    if i > 0 {
      assert StandsAt(next.order, i - 1, id);
    } else {
      assert StandsAt(next.order, |t.order| - 1, id);
    }
  }

  lemma {:induction false} CleanOneShrinks(c: Config, t: Table, now: nat, unix: nat)
    requires Enumerates(t.order, t.allocations)
    ensures Shrinks(t, CleanOne(c, t, now, unix))
  {
    var next := CleanOne(c, t, now, unix);
    SubsetSize(next.allocations.Keys, t.allocations.Keys);
    forall id | id in next.allocations ensures Listed(next.order, id) {
      CleanOneLists(c, t, now, unix, id);
    }
  }

  lemma {:induction false} CleanShrinks(c: Config, t: Table, now: nat, unix: nat, rounds: nat)
    requires Enumerates(t.order, t.allocations)
    ensures Shrinks(t, Clean(c, t, now, unix, rounds))
  {
    if rounds > 0 {
      CleanShrinks(c, t, now, unix, rounds - 1);
      CleanOneShrinks(c, Clean(c, t, now, unix, rounds - 1), now, unix);
    }
  }

  /** An expired allocation stands `position` places from the front of the queue, or is gone. */
  ghost predicate Due(c: Config, t: Table, id: AllocationId, position: int, now: nat, unix: nat) {
    && Enumerates(t.order, t.allocations)
    && (position < 0 ==> id !in t.allocations)
    && (position >= 0 ==>
          StandsAt(t.order, position, id) && id in t.allocations && Expired(c, t.allocations[id], now, unix))
  }

  lemma {:induction false} CleanOneAdvances(c: Config, t: Table, now: nat, unix: nat, id: AllocationId, position: int)
    requires Due(c, t, id, position, now, unix)
    ensures Due(c, CleanOne(c, t, now, unix), id, position - 1, now, unix)
  {
    CleanOneShrinks(c, t, now, unix);
    assert position > 0 ==> t.order[0] != t.order[position];
  }

  /** An expired entry is dropped when the tick reaches it; otherwise it moves up by the tick's length. */
  lemma {:induction false} CleanAdvances(
    c: Config, t: Table, now: nat, unix: nat, rounds: nat, id: AllocationId, position: int)
    requires Due(c, t, id, position, now, unix)
    ensures Due(c, Clean(c, t, now, unix, rounds), id, position - rounds, now, unix)
  {
    if rounds > 0 {
      CleanAdvances(c, t, now, unix, rounds - 1, id, position);
      CleanOneAdvances(c, Clean(c, t, now, unix, rounds - 1), now, unix, id, position - (rounds - 1));
    }
  }

  lemma {:induction false} CleanupOk(c: Config, relay: Relay, clock: nat, now: nat, unix: nat)
    requires TableOk(c, relay, clock) && clock <= now
    ensures TableOk(c, HandleCleanup(c, relay, now, unix), now)
  {
    var t := Table(relay.allocations, relay.cleanupOrder);
    CleanShrinks(c, t, now, unix, CLEANUP_PER_TICK);
    Quiet(relay.allocations, clock, now);
  }

  lemma {:induction false} DatagramOk(
    c: Config, relay: Relay, clock: nat, source: Address, packet: Bytes, now: nat, unix: nat)
    requires TableOk(c, relay, clock) && clock <= now
    ensures TableOk(c, Handle(c, relay, source, packet, now, unix).0, now)
  {
    Quiet(relay.allocations, clock, now);
    var header := Parse(packet);
    if header.Some? {
      var admitted := AllowSource(c, relay, source.ip, |packet|, now);
      assert admitted.0.allocations == relay.allocations && admitted.0.cleanupOrder == relay.cleanupOrder;
      if header.value.kind == BIND {
        BindOk(c, admitted.0, source, packet, header.value, clock, now, unix);
      } else if header.value.kind == MEDIA {
        MediaOk(c, admitted.0, source, packet, header.value, clock, now, unix);
      }
    }
  }

  /** The relay's tables stay consistent, with the queue enumerating exactly the allocations. */
  lemma {:induction false} TableStep(c: Config, relay: Relay, clock: nat, e: Event)
    requires TableOk(c, relay, clock) && clock <= e.now
    ensures TableOk(c, Step(c, relay, e).0, e.now)
  {
    match e
    case Cleanup(now, unix) => CleanupOk(c, relay, clock, now, unix);
    case Datagram(source, packet, now, unix) => DatagramOk(c, relay, clock, source, packet, now, unix);
  }
}
