/** The relay's mutable objects, each proved against the values the theorems are about. */
module MediaRelayEngine {
  import opened Basics
  import opened RelayWire
  import opened ReplayWindows
  import opened TokenBuckets
  import opened MediaRelay
  import opened MediaRelaySafety
  import MediaRelayTheorems

  /** The replay window with its bitmap, standing for the set of numbers it has accepted. */
  class ReplayFilter {
    var maximum: nat
    var bitmap: nat
    ghost var accepted: set<nat>

    ghost predicate Valid()
      reads this
    {
      Represents(Window(maximum, bitmap), accepted)
    }

    constructor ()
      ensures Valid() && accepted == {}
    {
      maximum, bitmap, accepted := 0, 0, {};
    }

    method AcceptSequence(sequence: nat) returns (ok: bool)
      requires Valid()
      modifies this
      ensures Valid()
      ensures ok <==> Fresh(old(accepted), sequence)
      ensures accepted == if ok then old(accepted) + {sequence} else old(accepted)
      ensures (Window(maximum, bitmap), ok) == Accept(old(Window(maximum, bitmap)), sequence)
    {
      AcceptRefines(Window(maximum, bitmap), accepted, sequence);
      if sequence == 0 {
        return false;
      }
      if sequence > maximum {
        var shift := sequence - maximum;
        bitmap := if shift >= WIDTH then 1 else SetBit(ShiftLeft(bitmap, shift), 0);
        maximum := sequence;
        accepted := accepted + {sequence};
        return true;
      }
      var distance := maximum - sequence;
      if distance >= WIDTH || Bit(bitmap, distance) {
        return false;
      }
      bitmap := SetBit(bitmap, distance);
      accepted := accepted + {sequence};
      return true;
    }
  }

  /** A token bucket whose credit pays for everything it lets through. */
  class TokenBucket {
    const rate: nat
    const capacity: nat
    var available: real
    var updated: nat

    ghost function View(): Bucket
      reads this
    {
      Bucket(rate, capacity, available, updated)
    }

    constructor (rate: nat, capacity: nat, now: nat)
      ensures View() == NewBucket(rate, capacity, now) && Sound(View())
    {
      this.rate, this.capacity := Max(rate, 1), Max(capacity, 1);
      available, updated := Max(capacity, 1) as real, now;
      new;
      NewBucketSound(rate, capacity, now);
    }

    method AllowAmount(amount: nat, now: nat) returns (ok: bool)
      requires Sound(View()) && updated <= now
      modifies this
      ensures (View(), ok) == Allow(old(View()), amount, now) && Sound(View())
      ensures available + (if ok then amount as real else 0.0) <= old(available) + Inflow(rate, now - old(updated))
    {
      AllowPays(View(), amount, updated, now);
      assert Inflow(rate, 0) == 0.0;
      var elapsed := (now - updated) as real / 1000.0;
      assert elapsed * rate as real == Inflow(rate, Elapsed(now, updated));
      available := MinReal(available + elapsed * rate as real, capacity as real);
      updated := now;
      if available < amount as real {
        return false;
      }
      available := available - amount as real;
      return true;
    }
  }

  class Engine {
    const config: Config
    var allocations: Allocations
    var cleanupOrder: seq<AllocationId>
    var perIp: map<Ip, TrafficLimit>
    var global: TrafficLimit
    ghost var clock: nat

    ghost function View(): Relay
      reads this
    {
      Relay(allocations, cleanupOrder, perIp, global)
    }

    /** The queue lists every allocation once, the tables are within their caps and the limiters sound. */
    ghost predicate Valid()
      reads this
    {
      TableOk(config, View(), clock) && |perIp| <= MAX_IP_BUCKETS
    }

    constructor (config: Config, now: nat)
      ensures Valid() && clock == now && View() == Start(config, now) && this.config == config
    {
      this.config, clock := config, now;
      allocations, cleanupOrder, perIp := map[], [], map[];
      global := NewTraffic(config.globalPackets, config.globalBytes, now);
    }

    method AdmitSource(ip: Ip, size: nat, now: nat) returns (ok: bool)
      modifies this`perIp, this`global
      ensures old(|perIp|) <= MAX_IP_BUCKETS ==> |perIp| <= MAX_IP_BUCKETS
      ensures (View(), ok) == AllowSource(config, old(View()), ip, size, now)
    {
      var overall := AllowTraffic(global, size, now);
      global := overall.0;
      if !overall.1 {
        return false;
      }
      if ip !in perIp && |perIp| >= MAX_IP_BUCKETS {
        return false;
      }
      var limit := if ip in perIp then perIp[ip] else NewTraffic(config.perIpPackets, config.perIpBytes, now);
      var own := AllowTraffic(limit, size, now);
      perIp := perIp[ip := own.0];
      return own.1;
    }

    /** An answered bind has put its sender into the role. */
    method BindDatagram(source: Address, packet: Bytes, h: Header, now: nat, unix: nat) returns (out: Option<Outgoing>)
      modifies this`allocations, this`cleanupOrder
      ensures out.Some? ==>
        && out.value.target == source && h.allocation in allocations
        && BindingOf(allocations[h.allocation], h.role).Some?
        && BindingOf(allocations[h.allocation], h.role).value.source == source
      ensures (View(), out) == HandleBind(config, old(View()), source, packet, h, now, unix)
    {
      var terms := BindTerms(config, source, packet, h, unix);
      if terms.None? {
        return None;
      }
      var isNew := h.allocation !in allocations;
      if isNew && |allocations| >= config.maxAllocations {
        return None;
      }
      var allocation := if isNew then NewAllocation(h.sessionId, terms.value, now) else allocations[h.allocation];
      if allocation.sessionId != h.sessionId {
        return None;
      }
      if allocation.terms != terms.value {
        return None;
      }
      var bound := BindRole(allocation, h.role, source, now);
      allocations := allocations[h.allocation := bound.0];
      if isNew {
        cleanupOrder := cleanupOrder + [h.allocation];
      }
      return if bound.1 then Some(Outgoing(source, Encode(h, BIND_REPLY))) else None;
    }

    /** Media goes from the address bound to its role to the one bound to the opposite role. */
    method MediaDatagram(source: Address, packet: Bytes, h: Header, now: nat, unix: nat) returns (out: Option<Outgoing>)
      requires |packet| >= HEADER_BYTES
      modifies this`allocations
      ensures out.Some? ==> h.allocation in old(allocations)
      ensures out.Some? ==>
        var a := old(allocations)[h.allocation];
        && BindingOf(a, h.role).Some? && BindingOf(a, h.role).value.source == source
        && BindingOf(a, Opposite(h.role)).Some?
        && out.value == Outgoing(BindingOf(a, Opposite(h.role)).value.source, packet[HEADER_BYTES..])
      ensures (View(), out) == HandleMedia(config, old(View()), source, packet, h, now, unix)
    {
      if h.allocation !in allocations {
        return None;
      }
      var allocation := allocations[h.allocation];
      var sequence := Carriable(config, allocation, source, packet, h, now, unix);
      if sequence.None? {
        return None;
      }
      var target := BindingOf(allocation, Opposite(h.role)).value.source;
      var spent := Spend(allocation, h.role, sequence.value, |packet|, now);
      allocations := allocations[h.allocation := spent.0];
      if !spent.1 {
        return None;
      }
      return Some(Outgoing(target, packet[HEADER_BYTES..]));
    }

    method Dispatch(source: Address, packet: Bytes, now: nat, unix: nat) returns (out: Option<Outgoing>)
      modifies this`allocations, this`cleanupOrder, this`perIp, this`global
      ensures old(|perIp|) <= MAX_IP_BUCKETS ==> |perIp| <= MAX_IP_BUCKETS
      ensures (View(), out) == Handle(config, old(View()), source, packet, now, unix)
    {
      var header := Parse(packet);
      if header.None? {
        return None;
      }
      var admitted := AdmitSource(source.ip, |packet|, now);
      if !admitted {
        return None;
      }
      var h := header.value;
      if h.kind == HELLO {
        out := HandleHello(config, source, packet, h, unix);
      } else if h.kind == BIND {
        out := BindDatagram(source, packet, h, now, unix);
      } else {
        out := MediaDatagram(source, packet, h, now, unix);
      }
    }

    /** Every datagram keeps the tables in order, and what goes out is no longer than what came in. */
    method HandleDatagram(source: Address, packet: Bytes, now: nat, unix: nat) returns (out: Option<Outgoing>)
      requires Valid() && clock <= now
      modifies this
      ensures Valid() && clock == now && (out.Some? ==> |out.value.bytes| <= |packet|)
      ensures (View(), out) == Handle(config, old(View()), source, packet, now, unix)
    {
      DatagramOk(config, View(), clock, source, packet, now, unix);
      MediaRelayTheorems.EmitsAtMostReceived(config, View(), Datagram(source, packet, now, unix));
      out := Dispatch(source, packet, now, unix);
      clock := now;
    }

    /** Inspects at most 64 entries of the queue. */
    method Inspect(now: nat, unix: nat)
      modifies this`allocations, this`cleanupOrder
      ensures Table(allocations, cleanupOrder) ==
              Clean(config, Table(old(allocations), old(cleanupOrder)), now, unix, CLEANUP_PER_TICK)
    {
      ghost var before := Table(allocations, cleanupOrder);
      var round := 0;
      while round < CLEANUP_PER_TICK && cleanupOrder != []
        invariant round <= CLEANUP_PER_TICK
        invariant Table(allocations, cleanupOrder) == Clean(config, before, now, unix, round)
      {
        var id := cleanupOrder[0];
        cleanupOrder := cleanupOrder[1..];
        if id !in allocations || Expired(config, allocations[id], now, unix) {
          allocations := Without(allocations, id);
        } else {
          cleanupOrder := cleanupOrder + [id];
        }
        round := round + 1;
      }
      if round < CLEANUP_PER_TICK {
        EmptyStays(config, before, now, unix, round, CLEANUP_PER_TICK);
      }
    }

    /** A tick keeps the tables in order; it inspects 64 queue entries and forgets sources idle for a minute. */
    method CleanupTick(now: nat, unix: nat)
      requires Valid() && clock <= now
      modifies this
      ensures Valid() && clock == now
      ensures View() == HandleCleanup(config, old(View()), now, unix)
    {
      CleanupOk(config, View(), clock, now, unix);
      SubsetSize(RecentTraffic(perIp, now).Keys, perIp.Keys);
      Inspect(now, unix);
      RetainRecent(now);
      clock := now;
    }

    method RetainRecent(now: nat)
      modifies this`perIp
      ensures perIp == RecentTraffic(old(perIp), now)
    {
      var all := perIp;
      var kept: map<Ip, TrafficLimit> := map[];
      var todo := all.Keys;
      while todo != {}
        invariant todo <= all.Keys
        invariant kept == map ip | ip in all && ip !in todo && Elapsed(now, all[ip].lastSeen) <= MINUTE :: all[ip]
        decreases |todo|
      {
        var ip :| ip in todo;
        if Elapsed(now, all[ip].lastSeen) <= MINUTE {
          kept := kept[ip := all[ip]];
        }
        todo := todo - {ip};
      }
      perIp := kept;
    }
  }

  lemma {:induction false} EmptyStays(c: Config, t: Table, now: nat, unix: nat, round: nat, rounds: nat)
    requires round <= rounds && Clean(c, t, now, unix, round).order == []
    ensures Clean(c, t, now, unix, rounds) == Clean(c, t, now, unix, round)
    decreases rounds
  {
    if round < rounds {
      EmptyStays(c, t, now, unix, round, rounds - 1);
    }
  }
}
