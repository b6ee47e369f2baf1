/** Exactly which requests the grant store answers, and with what. */
module GrantDecisions {
  import opened Basics
  import opened Texts
  import opened RelayWire
  import opened RelayGrants
  import opened GrantStore
  import opened GrantAcceptance

  /** Only an IPv4 address written as an IPv6 one is read as another address. */
  lemma {:induction false} NormalizedExactly(ip: Ip, octets: Bytes)
    requires |octets| == 4 && ip.Valid()
    ensures NormalizeIp(V6([0, 0, 0, 0, 0, 0, 0, 0, 0, 0, 255, 255] + octets)) == V4(octets)
    ensures NormalizeIp(ip) != ip ==>
      ip.V6? && ip.octets == [0, 0, 0, 0, 0, 0, 0, 0, 0, 0, 255, 255] + NormalizeIp(ip).octets
  {
    var mapped := [0, 0, 0, 0, 0, 0, 0, 0, 0, 0, 255, 255] + octets;
    assert mapped[12..] == octets && AllZero(mapped[..10]);
    if NormalizeIp(ip) != ip {
      assert ip.octets[..10] == [0, 0, 0, 0, 0, 0, 0, 0, 0, 0];
      assert ip.octets == ip.octets[..10] + [255, 255] + ip.octets[12..];
    }
  }

  /** A policy that issues anything, within its ranges. */
  ghost predicate PolicyInRange(p: Policy) {
    && (p.fastCompat || p.fastMedia) && 30 <= p.ttlSeconds <= 300 && 1_000 <= p.maxBitrateKbps <= 200_000
    && 608 <= p.maxDatagram <= 1400
  }

  /** The relay chosen by the quality service, if any, is this one, for this target, under this policy. */
  ghost predicate ChosenHere(p: Policy, r: Request) {
    r.selection.Some? ==>
      var chosen := r.selection.value;
      && chosen.generation == p.generation && chosen.version == 1 && EqIgnoreCase(chosen.relay, Trim(r.relay))
      && |chosen.allocation| == 16 && NormalizeIp(chosen.target) == NormalizeIp(r.target)
  }

  /**
   Allowed over a protected transport, with a session and a relay of sensible size, and with key
   and clock at hand.
   */
  ghost predicate Proper(r: Request) {
    && r.proceed && r.verdict == "allow" && (r.transport == SecureTcp || r.transport == WebSocketSignal)
    && |r.session| > 0 && Size(r.session) <= 128 && |Trim(r.relay)| > 0 && Size(Trim(r.relay)) <= 256
    && r.hasKey && r.unix.Some?
  }

  /** The record is neither older than the policy allows nor past its end. */
  ghost predicate Lasting(record: GrantRecord, ttlSeconds: nat, unix: nat, clock: nat) {
    clock <= record.created + 1000 * ttlSeconds && unix < record.expiresAt
  }

  /** No standing grant has the session for other addresses. */
  ghost predicate SessionFree(s: Store, p: Policy, r: Request)
    requires r.unix.Some?
  {
    forall k :: k in s.grants && Lasting(s.grants[k], p.ttlSeconds, r.unix.value, r.clock) && k.session == r.session ==>
      k == KeyOf(r)
  }

  /** A grant is standing that serves this request too. */
  ghost predicate Served(s: Store, p: Policy, r: Request)
    requires r.unix.Some?
  {
    && KeyOf(r) in s.grants
    && var record := s.grants[KeyOf(r)];
       && Lasting(record, p.ttlSeconds, r.unix.value, r.clock) && record.generation == p.generation
       && EqIgnoreCase(record.relay, Trim(r.relay))
       && record.quality == if r.selection.Some? then Some(r.selection.value.allocation) else None
  }

  /** The source has signatures left in its minute. */
  ghost predicate SignaturesLeft(s: Store, r: Request) {
    var ip := NormalizeIp(r.source);
    ip in s.rates && r.clock < s.rates[ip].started + 60_000 ==> s.rates[ip].count < 120
  }

  /** There is something to sign: a fast-media pair where the relay has an endpoint for it, or a plain one. */
  ghost predicate Signable(p: Policy, r: Request)
    requires r.unix.Some?
  {
    && r.unix.value + p.ttlSeconds < 0x1_0000_0000_0000_0000
    && (p.fastCompat || r.endpoint.Some?) && (p.fastMedia && r.endpoint.Some? ==> |r.freshId| == 16)
  }

  lemma {:induction false} LastingStays(s: Store, ttlSeconds: nat, unix: nat, clock: nat)
    ensures var s1 := Cleanup(s, ttlSeconds, unix, clock);
      && (forall k :: k in s1.grants <==> k in s.grants && Lasting(s.grants[k], ttlSeconds, unix, clock))
      && (forall k :: k in s1.grants ==> s1.grants[k] == s.grants[k])
  {
  }

  lemma {:induction false} FreeInSessions(s: Store, p: Policy, r: Request)
    requires Consistent(s) && r.unix.Some?
    ensures var s1 := Cleanup(s, p.ttlSeconds, r.unix.value, r.clock);
      SessionFree(s, p, r) <==> (r.session in s1.sessions ==> s1.sessions[r.session] == KeyOf(r))
  {
    var s1 := Cleanup(s, p.ttlSeconds, r.unix.value, r.clock);
    CleanupKeeps(s, p.ttlSeconds, r.unix.value, r.clock);
    LastingStays(s, p.ttlSeconds, r.unix.value, r.clock);
    if r.session in s1.sessions && s1.sessions[r.session] != KeyOf(r) {
      assert s1.sessions[r.session] in s1.grants;
    }
  }

  lemma {:induction false} SignaturesCounted(s: Store, p: Policy, r: Request, idle: Ip)
    requires r.unix.Some?
    ensures var s1 := Cleanup(s, p.ttlSeconds, r.unix.value, r.clock);
      ConsumeRate(s1.rates, NormalizeIp(r.source), p.maxAuthorizations, idle, r.clock).1 <==> SignaturesLeft(s, r)
  {
  }

  lemma {:induction false} ProperExactly(p: Policy, r: Request)
    ensures Acceptable(p, r) <==> PolicyInRange(p) && ChosenHere(p, r) && Proper(r)
  {
  }

  lemma {:induction false} SignedExactly(sign: Grant -> Bytes, p: Policy, r: Request)
    requires PolicyInRange(p) && Proper(r)
    ensures NewRecord(sign, p, r).Some? <==> Signable(p, r)
  {
  }

  /**
   Exactly which initiator is answered: a proper request, under a policy in range, for a relay chosen
   for it, whose session no other pair of addresses holds, and for which a grant stands already or a
   new one can be signed.
   */
  lemma {:induction false} AnsweredExactly(
    sign: Grant -> Bytes, s: Store, p: Policy, r: Request, victim: GrantKey, idle: Ip)
    requires Consistent(s)
    ensures Serve(sign, s, Authorizing(p, r, victim, idle)).1.Some? <==>
      && PolicyInRange(p) && Proper(r) && ChosenHere(p, r) && SessionFree(s, p, r)
      && (Served(s, p, r) || (SignaturesLeft(s, r) && Signable(p, r)))
  {
    ProperExactly(p, r);
    if Acceptable(p, r) {
      FreeInSessions(s, p, r);
      LastingStays(s, p.ttlSeconds, r.unix.value, r.clock);
      SignaturesCounted(s, p, r, idle);
      SignedExactly(sign, p, r);
    }
  }

  /** The grant of one half: `media` says whether it is for the fast-media relay. */
  ghost function Half(p: Policy, r: Request, media: bool, role: nat): Grant
    requires r.unix.Some? && (media ==> r.endpoint.Some?)
  {
    if media then
      Grant(1, r.session, r.unix.value + p.ttlSeconds, true, true, p.maxBitrateKbps, r.endpoint.value.protocol,
            Trim(r.relay), r.endpoint.value.udpPort, r.freshId, p.maxDatagram, role)
    else
      Grant(1, r.session, r.unix.value + p.ttlSeconds, true, false, p.maxBitrateKbps, 0, Trim(r.relay), 0, [], 0, 0)
  }

  /** One grant is built exactly for a session, relay and rate in range, and for media with an allocation and a role. */
  lemma {:induction false} BuiltExactly(session: Text, expiresAt: nat, p: Policy, relay: Text,
                                        endpoint: Option<Endpoint>, allocation: Bytes, role: nat)
    ensures var built := BuildGrant(session, expiresAt, p, relay, endpoint, allocation, role);
      && (built.Some? <==>
            && 0 < |session| && Size(session) <= 128 && 0 < |relay| && 1_000 <= p.maxBitrateKbps <= 200_000
            && (endpoint.Some? ==> |allocation| == 16 && 1 <= role <= 2))
      && (built.Some? && endpoint.None? ==>
            built.value == Grant(1, session, expiresAt, p.fastCompat, false, p.maxBitrateKbps, 0, relay, 0, [], 0, 0))
      && (built.Some? && endpoint.Some? ==>
            built.value == Grant(1, session, expiresAt, true, true, p.maxBitrateKbps, endpoint.value.protocol, relay,
                                 endpoint.value.udpPort, allocation, p.maxDatagram, role))
  {
  }

  lemma {:induction false} NewRecordIs(sign: Grant -> Bytes, p: Policy, r: Request)
    requires r.unix.Some? && NewRecord(sign, p, r).Some?
    ensures var media := p.fastMedia && r.endpoint.Some?;
      NewRecord(sign, p, r).value ==
      GrantRecord(sign(Half(p, r, media, 2)), sign(Half(p, r, media, 1)), Trim(r.relay),
                  if r.selection.Some? then Some(r.selection.value.allocation) else None, p.generation,
                  r.unix.value + p.ttlSeconds, r.clock, media)
  {
  }

  /** What stands after a new grant: it, and all that stood but for the one evicted to make room. */
  lemma {:induction false} InsertedExactly(
    s: Store, key: GrantKey, record: GrantRecord, maximum: nat, victim: GrantKey, k: GrantKey)
    ensures var after := Insert(s, key, record, maximum, victim).grants;
      var full := key !in s.grants && |s.grants| >= if maximum == 0 then 1 else maximum;
      && (k in after <==> k == key || (k in s.grants && !(full && k == victim)))
      && (k in after ==> after[k] == if k == key then record else s.grants[k])
  {
  }

  /**
   And with what: the target half of the grant that stands already, with nothing changed, or else of a
   new pair over the request's own session, relay and terms, which stands from now on.
   */
  lemma {:induction false} AnsweredWith(
    sign: Grant -> Bytes, s: Store, p: Policy, r: Request, victim: GrantKey, idle: Ip, k: GrantKey)
    requires Serve(sign, s, Authorizing(p, r, victim, idle)).1.Some? && r.unix.Some?
    ensures var (after, signed) := Serve(sign, s, Authorizing(p, r, victim, idle));
      var s1 := Cleanup(s, p.ttlSeconds, r.unix.value, r.clock);
      var media, full := p.fastMedia && r.endpoint.Some?,
          KeyOf(r) !in s1.grants && |s1.grants| >= if p.maxAuthorizations == 0 then 1 else p.maxAuthorizations;
      if Served(s, p, r) then signed.value == s.grants[KeyOf(r)].targetSigned && after == s1
      else
        && signed.value == sign(Half(p, r, media, 2))
        && (k in after.grants <==> k == KeyOf(r) || (k in s1.grants && !(full && k == victim)))
        && (k in after.grants ==>
              after.grants[k] ==
              if k == KeyOf(r)
              then GrantRecord(sign(Half(p, r, media, 2)), sign(Half(p, r, media, 1)), Trim(r.relay),
                               if r.selection.Some? then Some(r.selection.value.allocation) else None, p.generation,
                               r.unix.value + p.ttlSeconds, r.clock, media)
              else s1.grants[k])
  {
    var s1 := Cleanup(s, p.ttlSeconds, r.unix.value, r.clock);
    LastingStays(s, p.ttlSeconds, r.unix.value, r.clock);
    if !Served(s, p, r) {
      var rates := ConsumeRate(s1.rates, NormalizeIp(r.source), p.maxAuthorizations, idle, r.clock).0;
      NewRecordIs(sign, p, r);
      InsertedExactly(s1.(rates := rates), KeyOf(r), NewRecord(sign, p, r).value, p.maxAuthorizations, victim, k);
    }
  }

  /** Whatever is on record, only an unexpired grant of this session, address, policy and relay is handed out. */
  lemma {:induction false} RespondedUnexpired(
    s: Store, p: Policy, session: Text, source: Ip, relay: Text, unix: nat) returns (k: GrantKey)
    requires Respond(s, p, session, source, relay, unix).Some?
    ensures k in s.grants && Respond(s, p, session, source, relay, unix) == Some(s.grants[k].controllerSigned)
    ensures unix < s.grants[k].expiresAt && s.grants[k].generation == p.generation
    ensures EqIgnoreCase(s.grants[k].relay, relay)
  {
    k := s.responses[ResponseKey(session, NormalizeIp(source))];
  }

  /** A standing grant of this session for this answering address, under this policy and relay. */
  ghost predicate Answers(
    s: Store, k: GrantKey, p: Policy, session: Text, source: Ip, relay: Text, unix: nat, clock: nat) {
    && k in s.grants && Lasting(s.grants[k], p.ttlSeconds, unix, clock)
    && k.session == session && k.target == NormalizeIp(source)
    && s.grants[k].generation == p.generation && EqIgnoreCase(s.grants[k].relay, relay)
  }

  /** Exactly which answering side is answered: one that some standing grant names, with that grant's other half. */
  lemma {:induction false} RespondedExactly(sign: Grant -> Bytes, s: Store, p: Policy, session: Text, source: Ip,
                                            relay: Text, unix: nat, clock: nat)
    requires Consistent(s)
    ensures var out := Serve(sign, s, Responding(p, session, source, relay, unix, clock)).1;
      && (out.Some? <==>
            && 0 < |session| && Size(session) <= 128
            && exists k :: Answers(s, k, p, session, source, relay, unix, clock))
      && forall k :: Answers(s, k, p, session, source, relay, unix, clock) && out.Some? ==>
           out.value == s.grants[k].controllerSigned
  {
    var s1 := Cleanup(s, p.ttlSeconds, unix, clock);
    CleanupKeeps(s, p.ttlSeconds, unix, clock);
    LastingStays(s, p.ttlSeconds, unix, clock);
    var at := ResponseKey(session, NormalizeIp(source));
    forall k | Answers(s, k, p, session, source, relay, unix, clock)
      ensures at in s1.responses && s1.responses[at] == k
    {
      assert k in s1.grants && ResponseOf(k) == at;
    }
    if at in s1.responses && Serve(sign, s, Responding(p, session, source, relay, unix, clock)).1.Some? {
      assert Answers(s, s1.responses[at], p, session, source, relay, unix, clock);
    }
  }
}
