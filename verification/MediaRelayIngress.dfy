/** What the relay lets in: the global limiter over whole runs, and the table of sources. */
module MediaRelayIngress {
  import opened Basics
  import opened RelayWire
  import opened TokenBuckets
  import opened MediaRelay
  import opened MediaRelayTheorems

  ghost predicate BucketOk(b: Bucket, limit: nat, clock: nat) {
    Sound(b) && b.updated <= clock && b.rate == Max(limit, 1) && b.capacity == Max(limit, 1)
  }

  ghost predicate TrafficOk(t: TrafficLimit, packets: nat, bytes: nat, clock: nat) {
    BucketOk(t.packets, packets, clock) && BucketOk(t.bytes, bytes, clock)
  }

  /** An admitted datagram is paid for with one packet and its size. */
  lemma {:induction false} TrafficPays(t: TrafficLimit, packets: nat, bytes: nat, size: nat, clock: nat, now: nat)
    requires TrafficOk(t, packets, bytes, clock) && clock <= now
    ensures var (t', ok) := AllowTraffic(t, size, now);
      && TrafficOk(t', packets, bytes, now)
      && Credit(t'.packets, now) + (if ok then 1.0 else 0.0)
           <= Credit(t.packets, clock) + Inflow(Max(packets, 1), now - clock)
      && Credit(t'.bytes, now) + (if ok then size as real else 0.0)
           <= Credit(t.bytes, clock) + Inflow(Max(bytes, 1), now - clock)
  {
    AllowPays(t.packets, 1, clock, now);
    AllowPays(t.bytes, size, clock, now);
    CreditGrows(t.bytes, clock, now);
  }

  /** The datagram parses and is within the global limits and those of its source. */
  predicate Admitted(c: Config, relay: Relay, e: Event) {
    e.Datagram? && Parse(e.bytes).Some? && AllowSource(c, relay, e.source.ip, |e.bytes|, e.now).1
  }

  function AdmittedPackets(c: Config, relay: Relay, e: Event): nat {
    if Admitted(c, relay, e) then 1 else 0
  }

  function AdmittedBytes(c: Config, relay: Relay, e: Event): nat {
    if Admitted(c, relay, e) then |e.bytes| else 0
  }

  ghost predicate GlobalOk(c: Config, relay: Relay, clock: nat) {
    TrafficOk(relay.global, c.globalPackets, c.globalBytes, clock)
  }

  /** A datagram that does not get in leaves no trace but in the limiters, and gets no answer. */
  lemma {:induction false} OnlyAdmittedCounts(c: Config, relay: Relay, e: Event)
    requires e.Datagram? && !Admitted(c, relay, e)
    ensures var (relay', out) := Step(c, relay, e);
      out == None && relay'.allocations == relay.allocations && relay'.cleanupOrder == relay.cleanupOrder
  {
  }

  lemma {:induction false} GlobalAfter(c: Config, relay: Relay, e: Event)
    ensures Step(c, relay, e).0.global ==
      if e.Datagram? && Parse(e.bytes).Some? then AllowTraffic(relay.global, |e.bytes|, e.now).0 else relay.global
    ensures Admitted(c, relay, e) ==> AllowTraffic(relay.global, |e.bytes|, e.now).1
  {
  }

  lemma {:induction false} GlobalStep(c: Config, relay: Relay, e: Event, clock: nat)
    requires GlobalOk(c, relay, clock) && clock <= e.now
    ensures var relay' := Step(c, relay, e).0;
      && GlobalOk(c, relay', e.now)
      && Credit(relay'.global.packets, e.now) + AdmittedPackets(c, relay, e) as real
           <= Credit(relay.global.packets, clock) + Inflow(Max(c.globalPackets, 1), e.now - clock)
      && Credit(relay'.global.bytes, e.now) + AdmittedBytes(c, relay, e) as real
           <= Credit(relay.global.bytes, clock) + Inflow(Max(c.globalBytes, 1), e.now - clock)
  {
    GlobalAfter(c, relay, e);
    if e.Datagram? && Parse(e.bytes).Some? {
      TrafficPays(relay.global, c.globalPackets, c.globalBytes, |e.bytes|, clock, e.now);
    } else {
      CreditGrows(relay.global.packets, clock, e.now);
      CreditGrows(relay.global.bytes, clock, e.now);
    }
  }

  lemma {:induction false} GlobalAlwaysOk(run: Run, k: nat)
    requires IsRun(run) && k <= |run.events|
    ensures GlobalOk(run.c, run.states[k], ClockAt(run, k))
  {
    if k == 0 {
      NewBucketSound(run.c.globalPackets, Max(run.c.globalPackets, 1), run.t0);
      NewBucketSound(run.c.globalBytes, Max(run.c.globalBytes, 1), run.t0);
    } else {
      GlobalAlwaysOk(run, k - 1);
      assert StepAt(run, k - 1);
      GlobalStep(run.c, run.states[k - 1], run.events[k - 1], ClockAt(run, k - 1));
    }
  }

  /** Packets and bytes admitted by events `i` to `j - 1`. */
  function PacketsBetween(run: Run, i: nat, j: nat): nat
    requires i <= j <= |run.events| && j <= |run.states|
    decreases j
  {
    if i == j then 0 else PacketsBetween(run, i, j - 1) + AdmittedPackets(run.c, run.states[j - 1], run.events[j - 1])
  }

  function BytesBetween(run: Run, i: nat, j: nat): nat
    requires i <= j <= |run.events| && j <= |run.states|
    decreases j
  {
    if i == j then 0 else BytesBetween(run, i, j - 1) + AdmittedBytes(run.c, run.states[j - 1], run.events[j - 1])
  }

  lemma {:induction false} IngressTelescopes(run: Run, i: nat, j: nat)
    requires IsRun(run) && i <= j <= |run.events|
    ensures ClockAt(run, i) <= ClockAt(run, j)
    ensures var before, after := run.states[i].global, run.states[j].global;
      var ms := ClockAt(run, j) - ClockAt(run, i);
      && Credit(after.packets, ClockAt(run, j)) + PacketsBetween(run, i, j) as real
           <= Credit(before.packets, ClockAt(run, i)) + Inflow(Max(run.c.globalPackets, 1), ms)
      && Credit(after.bytes, ClockAt(run, j)) + BytesBetween(run, i, j) as real
           <= Credit(before.bytes, ClockAt(run, i)) + Inflow(Max(run.c.globalBytes, 1), ms)
    decreases j
  {
    if i < j {
      IngressTelescopes(run, i, j - 1);
      GlobalAlwaysOk(run, j - 1);
      assert StepAt(run, j - 1);
      GlobalStep(run.c, run.states[j - 1], run.events[j - 1], ClockAt(run, j - 1));
      InflowAdds(Max(run.c.globalPackets, 1), ClockAt(run, j - 1) - ClockAt(run, i),
                 ClockAt(run, j) - ClockAt(run, j - 1));
      InflowAdds(Max(run.c.globalBytes, 1), ClockAt(run, j - 1) - ClockAt(run, i),
                 ClockAt(run, j) - ClockAt(run, j - 1));
    } else {
      assert Inflow(Max(run.c.globalPackets, 1), 0) == 0.0 && Inflow(Max(run.c.globalBytes, 1), 0) == 0.0;
    }
  }

  lemma {:induction false} CreditBounds(b: Bucket, limit: nat, clock: nat)
    requires BucketOk(b, limit, clock)
    ensures 0.0 <= Credit(b, clock) <= Max(limit, 1) as real
  {
    InflowPositive(b.rate, Elapsed(clock, b.updated));
  }

  /**
   Between any two instants the relay works on at most one second's worth of its global
   packet and byte rates, plus the rates times the elapsed time.
   */
  lemma {:induction false} IngressBound(run: Run, i: nat, j: nat)
    requires IsRun(run) && i <= j <= |run.events|
    ensures ClockAt(run, i) <= ClockAt(run, j)
    ensures var packets, bytes := Max(run.c.globalPackets, 1), Max(run.c.globalBytes, 1);
      var ms := ClockAt(run, j) - ClockAt(run, i);
      && PacketsBetween(run, i, j) as real <= packets as real + Inflow(packets, ms)
      && BytesBetween(run, i, j) as real <= bytes as real + Inflow(bytes, ms)
  {
    IngressTelescopes(run, i, j);
    GlobalAlwaysOk(run, i);
    GlobalAlwaysOk(run, j);
    CreditBounds(run.states[i].global.packets, run.c.globalPackets, ClockAt(run, i));
    CreditBounds(run.states[j].global.packets, run.c.globalPackets, ClockAt(run, j));
    CreditBounds(run.states[i].global.bytes, run.c.globalBytes, ClockAt(run, i));
    CreditBounds(run.states[j].global.bytes, run.c.globalBytes, ClockAt(run, j));
  }

  lemma {:induction false} SourcesAfter(c: Config, relay: Relay, e: Event)
    ensures Step(c, relay, e).0.perIp ==
      if e.Cleanup? then RecentTraffic(relay.perIp, e.now)
      else if Parse(e.bytes).None? then relay.perIp
      else AllowSource(c, relay, e.source.ip, |e.bytes|, e.now).0.perIp
  {
  }

  /** The table of sources never outgrows its cap. */
  lemma {:induction false} SourcesBounded(run: Run, k: nat)
    requires IsRun(run) && k <= |run.events|
    ensures |run.states[k].perIp| <= MAX_IP_BUCKETS
  {
    if k > 0 {
      SourcesBounded(run, k - 1);
      assert StepAt(run, k - 1);
      var relay, e := run.states[k - 1], run.events[k - 1];
      SourcesAfter(run.c, relay, e);
      SubsetSize(RecentTraffic(relay.perIp, e.now).Keys, relay.perIp.Keys);
    }
  }

  // One source, across the minute after which it is forgotten.

  ghost predicate LimitOk(c: Config, t: TrafficLimit, clock: nat) {
    && TrafficOk(t, c.perIpPackets, c.perIpBytes, clock)
    && t.packets.updated <= t.lastSeen <= clock && t.bytes.updated <= t.lastSeen
  }

  ghost predicate SourcesOk(c: Config, perIp: map<Ip, TrafficLimit>, clock: nat) {
    forall ip :: ip in perIp ==> LimitOk(c, perIp[ip], clock)
  }

  /** What a source may still send at once; all of a second's worth while it is not in the table. */
  function PacketBudget(c: Config, perIp: map<Ip, TrafficLimit>, ip: Ip, clock: nat): real {
    if ip in perIp then Credit(perIp[ip].packets, clock) else Max(c.perIpPackets, 1) as real
  }

  function ByteBudget(c: Config, perIp: map<Ip, TrafficLimit>, ip: Ip, clock: nat): real {
    if ip in perIp then Credit(perIp[ip].bytes, clock) else Max(c.perIpBytes, 1) as real
  }

  /** The budgets after, with what was spent, are covered by those before and what flowed in. */
  ghost predicate Covered(
    c: Config, before: map<Ip, TrafficLimit>, after: map<Ip, TrafficLimit>, ip: Ip, clock: nat, now: nat,
    packets: nat, bytes: nat)
    requires clock <= now
  {
    && PacketBudget(c, after, ip, now) + packets as real
         <= PacketBudget(c, before, ip, clock) + Inflow(Max(c.perIpPackets, 1), now - clock)
    && ByteBudget(c, after, ip, now) + bytes as real
         <= ByteBudget(c, before, ip, clock) + Inflow(Max(c.perIpBytes, 1), now - clock)
  }

  lemma {:induction false} UntouchedCovered(
    c: Config, before: map<Ip, TrafficLimit>, after: map<Ip, TrafficLimit>, ip: Ip,
    clock: nat, now: nat)
    requires SourcesOk(c, before, clock) && clock <= now
    requires (ip in after <==> ip in before) && (ip in before ==> after[ip] == before[ip])
    ensures Covered(c, before, after, ip, clock, now, 0, 0)
  {
    if ip in before {
      CreditGrows(before[ip].packets, clock, now);
      CreditGrows(before[ip].bytes, clock, now);
    } else {
      InflowPositive(Max(c.perIpPackets, 1), now - clock);
      InflowPositive(Max(c.perIpBytes, 1), now - clock);
    }
  }

  lemma {:induction false} FullAgain(b: Bucket, limit: nat, clock: nat, now: nat)
    requires BucketOk(b, limit, clock) && now >= b.updated + 1000
    ensures Credit(b, now) == Max(limit, 1) as real
  {
    var ms := now - b.updated;
    InflowAdds(b.rate, 1000, ms - 1000);
    InflowPositive(b.rate, ms - 1000);
    assert Inflow(b.rate, 1000) == b.rate as real;
  }

  /** Forgetting a source after a minute gives it nothing: its limiters are full by then. */
  lemma {:induction false} ForgottenCovered(c: Config, before: map<Ip, TrafficLimit>, ip: Ip, clock: nat, now: nat)
    requires SourcesOk(c, before, clock) && clock <= now
    ensures Covered(c, before, RecentTraffic(before, now), ip, clock, now, 0, 0)
  {
    if ip in before && ip !in RecentTraffic(before, now) {
      FullAgain(before[ip].packets, c.perIpPackets, clock, now);
      FullAgain(before[ip].bytes, c.perIpBytes, clock, now);
      CreditGrows(before[ip].packets, clock, now);
      CreditGrows(before[ip].bytes, clock, now);
    } else {
      UntouchedCovered(c, before, RecentTraffic(before, now), ip, clock, now);
    }
  }

  lemma {:induction false} FreshLimit(c: Config, now: nat)
    ensures var t := NewTraffic(c.perIpPackets, c.perIpBytes, now);
      && LimitOk(c, t, now) && Credit(t.packets, now) == Max(c.perIpPackets, 1) as real
      && Credit(t.bytes, now) == Max(c.perIpBytes, 1) as real
  {
    NewBucketSound(c.perIpPackets, Max(c.perIpPackets, 1), now);
    NewBucketSound(c.perIpBytes, Max(c.perIpBytes, 1), now);
  }

  /** A source's own limiter pays for what it admits. */
  lemma {:induction false} OwnCovered(c: Config, before: map<Ip, TrafficLimit>, ip: Ip, size: nat, clock: nat, now: nat)
    requires SourcesOk(c, before, clock) && clock <= now
    ensures var limit := if ip in before then before[ip] else NewTraffic(c.perIpPackets, c.perIpBytes, now);
      var (own, ok) := AllowTraffic(limit, size, now);
      && LimitOk(c, own, now)
      && Covered(c, before, before[ip := own], ip, clock, now, if ok then 1 else 0, if ok then size else 0)
  {
    if ip in before {
      TrafficPays(before[ip], c.perIpPackets, c.perIpBytes, size, clock, now);
    } else {
      FreshLimit(c, now);
      TrafficPays(NewTraffic(c.perIpPackets, c.perIpBytes, now), c.perIpPackets, c.perIpBytes, size, now, now);
      InflowPositive(Max(c.perIpPackets, 1), now - clock);
      InflowPositive(Max(c.perIpBytes, 1), now - clock);
      assert Inflow(Max(c.perIpPackets, 1), 0) == 0.0 && Inflow(Max(c.perIpBytes, 1), 0) == 0.0;
    }
  }

  lemma {:induction false} SourcesLater(c: Config, perIp: map<Ip, TrafficLimit>, clock: nat, now: nat)
    requires SourcesOk(c, perIp, clock) && clock <= now
    ensures SourcesOk(c, perIp, now)
  {
  }

  function FromPackets(c: Config, relay: Relay, e: Event, ip: Ip): nat {
    if Admitted(c, relay, e) && e.source.ip == ip then 1 else 0
  }

  function FromBytes(c: Config, relay: Relay, e: Event, ip: Ip): nat {
    if Admitted(c, relay, e) && e.source.ip == ip then |e.bytes| else 0
  }

  /** How an event leaves the table of sources: pruned, untouched, or with its own source charged. */
  lemma {:induction false} TableCovered(c: Config, relay: Relay, ip: Ip, size: nat, clock: nat, now: nat, other: Ip)
    requires SourcesOk(c, relay.perIp, clock) && clock <= now
    ensures var (relay', ok) := AllowSource(c, relay, ip, size, now);
      && SourcesOk(c, relay'.perIp, now)
      && Covered(c, relay.perIp, relay'.perIp, other, clock, now, if ok && other == ip then 1 else 0,
                 if ok && other == ip then size else 0)
  {
    SourcesLater(c, relay.perIp, clock, now);
    OwnCovered(c, relay.perIp, ip, size, clock, now);
    UntouchedCovered(c, relay.perIp, relay.perIp, other, clock, now);
    if other != ip {
      UntouchedCovered(c, relay.perIp, AllowSource(c, relay, ip, size, now).0.perIp, other, clock, now);
    }
  }

  lemma {:induction false} SourceStep(c: Config, relay: Relay, e: Event, clock: nat, ip: Ip)
    requires SourcesOk(c, relay.perIp, clock) && clock <= e.now
    ensures var after := Step(c, relay, e).0.perIp;
      && SourcesOk(c, after, e.now)
      && Covered(c, relay.perIp, after, ip, clock, e.now, FromPackets(c, relay, e, ip), FromBytes(c, relay, e, ip))
  {
    SourcesAfter(c, relay, e);
    SourcesLater(c, relay.perIp, clock, e.now);
    if e.Cleanup? {
      ForgottenCovered(c, relay.perIp, ip, clock, e.now);
    } else if Parse(e.bytes).None? {
      UntouchedCovered(c, relay.perIp, relay.perIp, ip, clock, e.now);
    } else {
      TableCovered(c, relay, e.source.ip, |e.bytes|, clock, e.now, ip);
    }
  }

  ghost predicate SourcesOkAt(run: Run, k: nat)
    requires IsRun(run) && k <= |run.events|
  {
    SourcesOk(run.c, run.states[k].perIp, ClockAt(run, k))
  }

  lemma {:induction false} SourcesAlwaysOk(run: Run, k: nat, ip: Ip)
    requires IsRun(run) && k <= |run.events|
    ensures SourcesOkAt(run, k)
  {
    if k > 0 {
      SourcesAlwaysOk(run, k - 1, ip);
      assert StepAt(run, k - 1);
      SourceStep(run.c, run.states[k - 1], run.events[k - 1], ClockAt(run, k - 1), ip);
    }
  }

  /** Packets and bytes admitted from one source by events `i` to `j - 1`. */
  function PacketsFrom(run: Run, i: nat, j: nat, ip: Ip): nat
    requires i <= j <= |run.events| && j <= |run.states|
    decreases j
  {
    if i == j then 0 else PacketsFrom(run, i, j - 1, ip) + FromPackets(run.c, run.states[j - 1], run.events[j - 1], ip)
  }

  function BytesFrom(run: Run, i: nat, j: nat, ip: Ip): nat
    requires i <= j <= |run.events| && j <= |run.states|
    decreases j
  {
    if i == j then 0 else BytesFrom(run, i, j - 1, ip) + FromBytes(run.c, run.states[j - 1], run.events[j - 1], ip)
  }

  ghost predicate CoveredBetween(run: Run, i: nat, j: nat, ip: Ip)
    requires IsRun(run) && i <= j <= |run.events| && ClockAt(run, i) <= ClockAt(run, j)
  {
    Covered(run.c, run.states[i].perIp, run.states[j].perIp, ip, ClockAt(run, i), ClockAt(run, j),
            PacketsFrom(run, i, j, ip), BytesFrom(run, i, j, ip))
  }

  lemma {:induction false} CoveredStep(run: Run, k: nat, ip: Ip)
    requires IsRun(run) && k < |run.events|
    ensures ClockAt(run, k) <= ClockAt(run, k + 1)
    ensures Covered(run.c, run.states[k].perIp, run.states[k + 1].perIp, ip, ClockAt(run, k), ClockAt(run, k + 1),
                    FromPackets(run.c, run.states[k], run.events[k], ip),
                    FromBytes(run.c, run.states[k], run.events[k], ip))
  {
    SourcesAlwaysOk(run, k, ip);
    assert StepAt(run, k);
    SourceStep(run.c, run.states[k], run.events[k], ClockAt(run, k), ip);
  }

  lemma {:induction false} SourceTelescopes(run: Run, i: nat, j: nat, ip: Ip)
    requires IsRun(run) && i <= j <= |run.events|
    ensures ClockAt(run, i) <= ClockAt(run, j) && CoveredBetween(run, i, j, ip)
    decreases j
  {
    var packets, bytes := Max(run.c.perIpPackets, 1), Max(run.c.perIpBytes, 1);
    if i < j {
      SourceTelescopes(run, i, j - 1, ip);
      CoveredStep(run, j - 1, ip);
      InflowAdds(packets, ClockAt(run, j - 1) - ClockAt(run, i), ClockAt(run, j) - ClockAt(run, j - 1));
      InflowAdds(bytes, ClockAt(run, j - 1) - ClockAt(run, i), ClockAt(run, j) - ClockAt(run, j - 1));
    } else {
      assert Inflow(packets, 0) == 0.0 && Inflow(bytes, 0) == 0.0;
    }
  }

  /**
   Between any two instants the relay works for one source on at most one second's worth of the
   per-source rates, plus the rates times the elapsed time, however often it was forgotten.
   */
  lemma {:induction false} SourceBound(run: Run, i: nat, j: nat, ip: Ip)
    requires IsRun(run) && i <= j <= |run.events|
    ensures ClockAt(run, i) <= ClockAt(run, j)
    ensures var packets, bytes := Max(run.c.perIpPackets, 1), Max(run.c.perIpBytes, 1);
      var ms := ClockAt(run, j) - ClockAt(run, i);
      && PacketsFrom(run, i, j, ip) as real <= packets as real + Inflow(packets, ms)
      && BytesFrom(run, i, j, ip) as real <= bytes as real + Inflow(bytes, ms)
  {
    SourceTelescopes(run, i, j, ip);
    SourcesAlwaysOk(run, i, ip);
    SourcesAlwaysOk(run, j, ip);
    BudgetsBounded(run.c, run.states[i].perIp, ip, ClockAt(run, i));
    BudgetsBounded(run.c, run.states[j].perIp, ip, ClockAt(run, j));
  }

  lemma {:induction false} BudgetsBounded(c: Config, perIp: map<Ip, TrafficLimit>, ip: Ip, clock: nat)
    requires SourcesOk(c, perIp, clock)
    ensures 0.0 <= PacketBudget(c, perIp, ip, clock) <= Max(c.perIpPackets, 1) as real
    ensures 0.0 <= ByteBudget(c, perIp, ip, clock) <= Max(c.perIpBytes, 1) as real
  {
    if ip in perIp {
      CreditBounds(perIp[ip].packets, c.perIpPackets, clock);
      CreditBounds(perIp[ip].bytes, c.perIpBytes, clock);
    }
  }
}
