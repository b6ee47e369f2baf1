/** The grant store as the server holds it: maps updated in place, proved against `GrantStore`. */
module GrantStoreObject {
  import opened Basics
  import opened Texts
  import opened RelayWire
  import opened RelayGrants
  import opened GrantStore
  import GrantAcceptance

  class FastRelayState {
    var grants: map<GrantKey, GrantRecord>
    var sessions: map<Text, GrantKey>
    var responses: map<ResponseKey, GrantKey>
    var rates: map<Ip, SigningRate>

    function View(): Store
      reads this
    {
      Store(grants, sessions, responses, rates)
    }

    ghost predicate Valid(sign: Grant -> Bytes)
      reads this
    {
      Consistent(View()) && GrantAcceptance.AllGenuine(sign, View())
    }

    constructor ()
      ensures View() == Store(map[], map[], map[], map[])
      ensures forall sign: Grant -> Bytes :: Valid(sign)
    {
      grants, sessions, responses, rates := map[], map[], map[], map[];
    }

    /** The grant is gone and nothing leads to it any more. */
    method RemoveKey(key: GrantKey)
      modifies this
      ensures key !in grants && (old(Consistent(View())) ==> Consistent(View()))
      ensures View() == RemoveGrant(old(View()), key)
    {
      if Consistent(View()) {
        RemoveKeeps(View(), key);
      }
      if key !in grants {
        return;
      }
      grants := grants - {key};
      sessions := map x | x in sessions && sessions[x] != key :: sessions[x];
      responses := map x | x in responses && responses[x] != key :: responses[x];
    }

    /** Scans for a grant no other is older than. */
    method FindOldest() returns (oldest: Option<GrantKey>)
      ensures oldest.None? <==> grants == map[]
      ensures oldest.Some? ==> Oldest(grants, oldest.value)
    {
      oldest := None;
      var left := grants.Keys;
      while left != {}
        invariant left <= grants.Keys
        invariant oldest.None? ==> left == grants.Keys
        invariant oldest.Some? ==> oldest.value in grants
        invariant oldest.Some? ==> forall k :: k in grants && k !in left ==>
            grants[oldest.value].created <= grants[k].created
        decreases left
      {
        var k :| k in left;
        left := left - {k};
        if oldest.None? || grants[k].created < grants[oldest.value].created {
          oldest := Some(k);
        }
      }
    }

    method RemoveOldestGrant() returns (ghost victim: Option<GrantKey>)
      modifies this
      ensures victim.None? <==> old(grants) == map[]
      ensures victim.Some? ==> Oldest(old(grants), victim.value)
      ensures View() == if victim.Some? then RemoveGrant(old(View()), victim.value) else old(View())
    {
      var oldest := FindOldest();
      victim := oldest;
      if oldest.Some? {
        RemoveKey(oldest.value);
      }
    }

    method RemoveOldestRate() returns (ghost victim: Option<Ip>)
      modifies this`rates
      ensures victim.None? <==> old(rates) == map[]
      ensures victim.Some? ==> OldestRate(old(rates), victim.value)
      ensures rates == if victim.Some? then Without(old(rates), victim.value) else old(rates)
    {
      var oldest: Option<Ip> := None;
      var left := rates.Keys;
      while left != {}
        invariant left <= rates.Keys && rates == old(rates)
        invariant oldest.None? ==> left == rates.Keys
        invariant oldest.Some? ==> oldest.value in rates
        invariant oldest.Some? ==> forall x :: x in rates && x !in left ==>
            rates[oldest.value].started <= rates[x].started
        decreases left
      {
        var x :| x in left;
        left := left - {x};
        if oldest.None? || rates[x].started < rates[oldest.value].started {
          oldest := Some(x);
        }
      }
      victim := oldest;
      if oldest.Some? {
        rates := rates - {oldest.value};
      }
    }

    method ConsumeSigningRate(ip: Ip, maximum: nat, clock: nat) returns (ok: bool, ghost idle: Ip)
      modifies this`rates
      ensures ip !in old(rates) && |old(rates)| >= Max(maximum, 1) ==> OldestRate(old(rates), idle)
      ensures (rates, ok) == ConsumeRate(old(rates), ip, maximum, idle, clock)
    {
      idle := ip;
      if ip !in rates && |rates| >= Max(maximum, 1) {
        ghost var found := RemoveOldestRate();
        idle := found.value;
      }
      var rate := if ip in rates then rates[ip] else SigningRate(clock, 0);
      if Elapsed(clock, rate.started) >= SIGNING_WINDOW {
        rate := SigningRate(clock, 0);
      }
      if rate.count >= MAX_SIGNATURES {
        rates := rates[ip := rate];
        return false, idle;
      }
      rates := rates[ip := rate.(count := rate.count + 1)];
      return true, idle;
    }

    /** Puts a record in, in place of the one under its key and of the oldest when there is no room. */
    method InsertRecord(key: GrantKey, record: GrantRecord, maximum: nat) returns (ghost victim: GrantKey)
      modifies this
      ensures key !in old(grants) && |old(grants)| >= Max(maximum, 1) ==> Oldest(old(grants), victim)
      ensures View() == Insert(old(View()), key, record, maximum, victim)
    {
      victim := key;
      if key !in grants && |grants| >= Max(maximum, 1) {
        ghost var found := RemoveOldestGrant();
        victim := found.value;
      }
      RemoveKey(key);
      sessions := sessions[key.session := key];
      responses := responses[ResponseOf(key) := key];
      grants := grants[key := record];
    }

    /**
     The authorization path: refusals touch nothing, a reusable grant is handed out again,
     otherwise the source pays one signature and the new record replaces what stands in its way.
     */
    method AuthorizeRequest(sign: Grant -> Bytes, p: Policy, r: Request)
      returns (signed: Option<Bytes>, ghost victim: GrantKey, ghost idle: Ip)
      modifies this
      ensures Evicts(old(View()), p, r) ==> Oldest(old(grants), victim)
      ensures (View(), signed) == Authorize(sign, old(View()), p, r, victim, idle)
    {
      var key := KeyOf(r);
      ghost var first := FirstIssued(grants);
      victim, idle := if first.Some? then first.value else key, key.initiator;
      if !Acceptable(p, r) || (r.session in sessions && sessions[r.session] != key) {
        return None, victim, idle;
      }
      if key in grants && Reusable(grants[key], p, r) {
        return Some(grants[key].targetSigned), victim, idle;
      }
      var ok;
      ok, idle := ConsumeSigningRate(key.initiator, p.maxAuthorizations, r.clock);
      if !ok {
        return None, victim, idle;
      }
      var record := NewRecord(sign, p, r);
      if record.None? {
        return None, victim, idle;
      }
      victim := InsertRecord(key, record.value, p.maxAuthorizations);
      return Some(record.value.targetSigned), victim, idle;
    }

    /** What a peer's request runs: expiry first, then the authorization. */
    method AuthorizationForRequest(sign: Grant -> Bytes, p: Policy, r: Request, ghost cap: nat)
      returns (signed: Option<Bytes>, ghost victim: GrantKey, ghost idle: Ip)
      requires Valid(sign) && |grants| <= Max(cap, 1) && p.maxAuthorizations <= cap
      modifies this
      ensures Valid(sign) && |grants| <= Max(cap, 1)
      ensures (View(), signed)
          == GrantAcceptance.Serve(sign, old(View()), GrantAcceptance.Authorizing(p, r, victim, idle))
    {
      Expire(p.ttlSeconds, if r.unix.Some? then r.unix.value else 0, r.clock);
      signed, victim, idle := AuthorizeRequest(sign, p, r);
      GrantAcceptance.ServeKeeps(sign, old(View()), GrantAcceptance.Authorizing(p, r, victim, idle), cap);
    }

    method Retain(ttlSeconds: nat, unix: nat, clock: nat)
      modifies this
      ensures View() == Cleanup(old(View()), ttlSeconds, unix, clock)
    {
      grants := map k | k in grants && Current(grants[k], ttlSeconds, unix, clock) :: grants[k];
      sessions := map x | x in sessions && sessions[x] in grants :: sessions[x];
      responses := map x | x in responses && responses[x] in grants :: responses[x];
      rates := map ip | ip in rates && Elapsed(clock, rates[ip].started) <= SIGNING_WINDOW :: rates[ip];
    }

    /** Exactly the grants still current remain, and the maps still agree. */
    method Expire(ttlSeconds: nat, unix: nat, clock: nat)
      requires Consistent(View())
      modifies this
      ensures Consistent(View()) && View() == Cleanup(old(View()), ttlSeconds, unix, clock)
      ensures forall k :: k in old(grants) ==> (k in grants <==> Current(old(grants)[k], ttlSeconds, unix, clock))
    {
      CleanupKeeps(View(), ttlSeconds, unix, clock);
      Retain(ttlSeconds, unix, clock);
    }
  }

  /** Some grant was issued first, unless there is none. */
  lemma {:induction false} FirstIssued(grants: map<GrantKey, GrantRecord>) returns (first: Option<GrantKey>)
    ensures first.None? <==> grants == map[]
    ensures first.Some? ==> Oldest(grants, first.value)
    decreases |grants|
  {
    first := None;
    if k :| k in grants {
      WithoutSize(grants, k);
      var rest := FirstIssued(Without(grants, k));
      first := Some(if rest.Some? && grants[rest.value].created < grants[k].created then rest.value else k);
      assert forall x :: x in grants && x != k ==> x in Without(grants, k);
    }
  }
}
