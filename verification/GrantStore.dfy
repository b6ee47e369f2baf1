/**
 The server's store of issued relay grants. It looks grants up by session, by
 (session, target address) for the answering side, and by full key, and keeps the
 three maps in step through issue, reuse, replacement, eviction and expiry.
 */
module GrantStore {
  import opened Basics
  import opened Texts
  import opened RelayWire
  import opened RelayGrants

  const U64_MAX := 0xFFFF_FFFF_FFFF_FFFF
  const MAX_RELAY_NAME := 256
  const SIGNING_WINDOW := 60_000
  const MAX_SIGNATURES := 120
  const QUALITY_VERSION := 1

  datatype Transport = UnsupportedUdp | Tcp | SecureTcp | WebSocketSignal

  datatype GrantKey = GrantKey(session: Text, initiator: Ip, target: Ip)

  datatype ResponseKey = ResponseKey(session: Text, target: Ip)

  datatype GrantRecord = GrantRecord(
    targetSigned: Bytes, controllerSigned: Bytes, relay: Text, quality: Option<Bytes>,
    generation: nat, expiresAt: nat, created: nat, fastMedia: bool)

  datatype SigningRate = SigningRate(started: nat, count: nat)

  datatype Store = Store(
    grants: map<GrantKey, GrantRecord>, sessions: map<Text, GrantKey>,
    responses: map<ResponseKey, GrantKey>, rates: map<Ip, SigningRate>)

  datatype Policy = Policy(
    generation: nat, fastCompat: bool, fastMedia: bool, ttlSeconds: nat, maxBitrateKbps: nat,
    maxDatagram: nat, maxAuthorizations: nat)

  datatype Selection = Selection(generation: nat, version: nat, relay: Text, allocation: Bytes, target: Ip)

  datatype Endpoint = Endpoint(protocol: nat, udpPort: nat)

  /** One authorization request; `unix` may be unavailable, `freshId` is the random allocation id. */
  datatype Request = Request(
    session: Text, source: Ip, target: Ip, relay: Text, transport: Transport, proceed: bool, verdict: Text,
    selection: Option<Selection>, endpoint: Option<Endpoint>, hasKey: bool, unix: Option<nat>, clock: nat,
    freshId: Bytes)

  /** An IPv4 address wrapped in IPv6 is the IPv4 address. */
  function NormalizeIp(ip: Ip): Ip {
    if ip.V6? && |ip.octets| == 16 && AllZero(ip.octets[..10]) && ip.octets[10] == 255 && ip.octets[11] == 255
    then V4(ip.octets[12..]) else ip
  }

  function KeyOf(r: Request): GrantKey {
    GrantKey(r.session, NormalizeIp(r.source), NormalizeIp(r.target))
  }

  function ResponseOf(key: GrantKey): ResponseKey {
    ResponseKey(key.session, key.target)
  }

  // Issuing one grant.

  function BuildGrant(session: Text, expiresAt: nat, p: Policy, relay: Text, endpoint: Option<Endpoint>,
                      allocation: Bytes, role: nat): Option<Grant>
  {
    var media := endpoint.Some?;
    if session == "" || Size(session) > MAX_SESSION_UUID_BYTES || relay == ""
       || !(MIN_BITRATE_KBPS <= p.maxBitrateKbps <= MAX_BITRATE_KBPS)
       || (media && (|allocation| != 16 || role !in {CONTROLLER as nat, TARGET as nat}))
    then None
    else
      Some(Grant(GRANT_VERSION, session, expiresAt, p.fastCompat || media, media, p.maxBitrateKbps,
                 if media then endpoint.value.protocol else 0, relay,
                 if media then endpoint.value.udpPort else 0, if media then allocation else [],
                 if media then p.maxDatagram else 0, if media then role else 0))
  }

  // Dropping grants.

  function RemoveGrant(s: Store, key: GrantKey): Store {
    if key !in s.grants then s
    else
      Store(Without(s.grants, key),
            map x | x in s.sessions && s.sessions[x] != key :: s.sessions[x],
            map x | x in s.responses && s.responses[x] != key :: s.responses[x], s.rates)
  }

  predicate Current(record: GrantRecord, ttlSeconds: nat, unix: nat, clock: nat) {
    Elapsed(clock, record.created) <= 1000 * ttlSeconds && record.expiresAt > unix
  }

  function CleanGrants(s: Store, ttlSeconds: nat, unix: nat, clock: nat): map<GrantKey, GrantRecord> {
    map k | k in s.grants && Current(s.grants[k], ttlSeconds, unix, clock) :: s.grants[k]
  }

  function Cleanup(s: Store, ttlSeconds: nat, unix: nat, clock: nat): Store {
    var grants := CleanGrants(s, ttlSeconds, unix, clock);
    Store(grants,
          map x | x in s.sessions && s.sessions[x] in grants :: s.sessions[x],
          map x | x in s.responses && s.responses[x] in grants :: s.responses[x],
          map ip | ip in s.rates && Elapsed(clock, s.rates[ip].started) <= SIGNING_WINDOW :: s.rates[ip])
  }

  /** No other grant is older; where several are, the hash map's order decides. */
  ghost predicate Oldest(grants: map<GrantKey, GrantRecord>, key: GrantKey) {
    key in grants && forall k :: k in grants ==> grants[key].created <= grants[k].created
  }

  /** A new grant for this request needs another one's place. */
  predicate Evicts(s: Store, p: Policy, r: Request) {
    KeyOf(r) !in s.grants && |s.grants| >= Max(p.maxAuthorizations, 1)
  }

  ghost predicate OldestRate(rates: map<Ip, SigningRate>, ip: Ip) {
    ip in rates && forall x :: x in rates ==> rates[ip].started <= rates[x].started
  }

  // The signing limiter.

  function RoomForRate(rates: map<Ip, SigningRate>, ip: Ip, maximum: nat, victim: Ip): map<Ip, SigningRate> {
    if ip !in rates && |rates| >= Max(maximum, 1) then Without(rates, victim) else rates
  }

  function ConsumeRate(
    rates: map<Ip, SigningRate>, ip: Ip, maximum: nat, victim: Ip, clock: nat): (map<Ip, SigningRate>, bool) {
    var table := RoomForRate(rates, ip, maximum, victim);
    var rate := if ip in table then table[ip] else SigningRate(clock, 0);
    var current := if Elapsed(clock, rate.started) >= SIGNING_WINDOW then SigningRate(clock, 0) else rate;
    if current.count >= MAX_SIGNATURES then (table[ip := current], false)
    else (table[ip := current.(count := current.count + 1)], true)
  }

  /** Signatures a source has used up in its current minute. */
  function Signed(rates: map<Ip, SigningRate>, ip: Ip, clock: nat): nat {
    if ip in rates && Elapsed(clock, rates[ip].started) < SIGNING_WINDOW then rates[ip].count else 0
  }

  /**
   A source is refused exactly when it has used up its minute; a signature adds one to its own
   account and none to another's, and the table keeps to its size.
   */
  lemma {:induction false} RateAccounts(
    rates: map<Ip, SigningRate>, ip: Ip, maximum: nat, victim: Ip, clock: nat, other: Ip)
    requires ip !in rates && |rates| >= Max(maximum, 1) ==> OldestRate(rates, victim)
    requires forall x :: x in rates ==> rates[x].count <= MAX_SIGNATURES
    ensures var (rates', ok) := ConsumeRate(rates, ip, maximum, victim, clock);
      && (ok <==> Signed(rates, ip, clock) < MAX_SIGNATURES)
      && Signed(rates', ip, clock) == Signed(rates, ip, clock) + (if ok then 1 else 0)
      && (other != ip && other in rates' ==> other in rates && rates'[other] == rates[other])
      && (forall x :: x in rates' ==> rates'[x].count <= MAX_SIGNATURES)
      && |rates'| <= Max(|rates|, Max(maximum, 1))
  {
    if ip !in rates && |rates| >= Max(maximum, 1) {
      WithoutSize(rates, victim);
    }
  }

  // Authorizing a request.

  predicate PolicyUsable(p: Policy) {
    && (p.fastCompat || p.fastMedia)
    && 30 <= p.ttlSeconds <= 300 && MIN_BITRATE_KBPS <= p.maxBitrateKbps <= MAX_BITRATE_KBPS
    && MIN_RELAY_DATAGRAM <= p.maxDatagram <= MAX_RELAY_DATAGRAM
  }

  predicate SelectionMatches(p: Policy, r: Request, relay: Text) {
    r.selection.None? ||
    var s := r.selection.value;
    && s.generation == p.generation && s.version == QUALITY_VERSION && EqIgnoreCase(s.relay, relay)
    && |s.allocation| == 16 && NormalizeIp(s.target) == NormalizeIp(r.target)
  }

  predicate Acceptable(p: Policy, r: Request) {
    var relay := Trim(r.relay);
    && PolicyUsable(p) && (r.transport.SecureTcp? || r.transport.WebSocketSignal?) && r.proceed && r.verdict == "allow"
    && r.session != "" && Size(r.session) <= MAX_SESSION_UUID_BYTES && relay != "" && Size(relay) <= MAX_RELAY_NAME
    && SelectionMatches(p, r, relay) && r.hasKey && r.unix.Some?
  }

  function QualityOf(r: Request): Option<Bytes> {
    if r.selection.Some? then Some(r.selection.value.allocation) else None
  }

  predicate Reusable(record: GrantRecord, p: Policy, r: Request)
    requires r.unix.Some?
  {
    && record.generation == p.generation && record.quality == QualityOf(r)
    && EqIgnoreCase(record.relay, Trim(r.relay)) && record.expiresAt > r.unix.value
  }

  /** The record a fresh authorization creates, or None when none can be signed. */
  function NewRecord(sign: Grant -> Bytes, p: Policy, r: Request): Option<GrantRecord>
    requires r.unix.Some?
  {
    var expiresAt := r.unix.value + p.ttlSeconds;
    var media := p.fastMedia && r.endpoint.Some?;
    if expiresAt > U64_MAX || (!p.fastCompat && !media) then None
    else
      var endpoint := if media then r.endpoint else None;
      var target := BuildGrant(r.session, expiresAt, p, Trim(r.relay), endpoint, r.freshId,
                               if media then TARGET as nat else 0);
      var controller := BuildGrant(r.session, expiresAt, p, Trim(r.relay), endpoint, r.freshId,
                                   if media then CONTROLLER as nat else 0);
      if target.None? || controller.None? then None
      else
        Some(GrantRecord(sign(target.value), sign(controller.value), Trim(r.relay), QualityOf(r), p.generation,
                         expiresAt, r.clock, media))
  }

  /** Put the record in, evicting `victim` first when the store is full. */
  function Insert(s: Store, key: GrantKey, record: GrantRecord, maximum: nat, victim: GrantKey): Store {
    var s1 := if key !in s.grants && |s.grants| >= Max(maximum, 1) then RemoveGrant(s, victim) else s;
    var s2 := RemoveGrant(s1, key);
    Store(s2.grants[key := record], s2.sessions[key.session := key], s2.responses[ResponseOf(key) := key], s2.rates)
  }

  function Authorize(
    sign: Grant -> Bytes, s: Store, p: Policy, r: Request, victim: GrantKey, idle: Ip): (Store, Option<Bytes>) {
    if !Acceptable(p, r) then (s, None)
    else
      var key := KeyOf(r);
      if r.session in s.sessions && s.sessions[r.session] != key then (s, None)
      else if key in s.grants && Reusable(s.grants[key], p, r) then (s, Some(s.grants[key].targetSigned))
      else
        var rate := ConsumeRate(s.rates, NormalizeIp(r.source), p.maxAuthorizations, idle, r.clock);
        var s1 := s.(rates := rate.0);
        if !rate.1 then (s1, None)
        else
          var record := NewRecord(sign, p, r);
          if record.None? then (s1, None)
          else (Insert(s1, key, record.value, p.maxAuthorizations, victim), Some(record.value.targetSigned))
  }

  /** The answering side asks for its half of the pair. */
  function Respond(s: Store, p: Policy, session: Text, source: Ip, relay: Text, unix: nat): Option<Bytes> {
    var key := ResponseKey(session, NormalizeIp(source));
    if session == "" || Size(session) > MAX_SESSION_UUID_BYTES || key !in s.responses || s.responses[key] !in s.grants
    then None
    else
      var record := s.grants[s.responses[key]];
      if record.generation == p.generation && record.expiresAt > unix && EqIgnoreCase(record.relay, relay)
      then Some(record.controllerSigned) else None
  }

  // The three maps agree.

  ghost predicate Consistent(s: Store) {
    && (forall k :: k in s.grants ==>
          && k.session in s.sessions && s.sessions[k.session] == k
          && ResponseOf(k) in s.responses && s.responses[ResponseOf(k)] == k)
    && (forall x :: x in s.sessions ==> s.sessions[x] in s.grants && s.sessions[x].session == x)
    && (forall x :: x in s.responses ==> s.responses[x] in s.grants && ResponseOf(s.responses[x]) == x)
  }

  /** Each session has at most one grant, and so does each (session, target) pair. */
  lemma {:induction false} OneGrantPerSession(s: Store, k: GrantKey, k': GrantKey)
    requires Consistent(s) && k in s.grants && k' in s.grants && k.session == k'.session
    ensures k == k'
  {
    assert s.sessions[k.session] == k && s.sessions[k'.session] == k';
  }

  lemma {:induction false} RemoveKeeps(s: Store, key: GrantKey)
    requires Consistent(s)
    ensures Consistent(RemoveGrant(s, key))
    ensures |RemoveGrant(s, key).grants| == |s.grants| - if key in s.grants then 1 else 0
  {
    if key in s.grants {
      WithoutSize(s.grants, key);
    }
  }

  lemma {:induction false} CleanupKeeps(s: Store, ttlSeconds: nat, unix: nat, clock: nat)
    requires Consistent(s)
    ensures Consistent(Cleanup(s, ttlSeconds, unix, clock))
    ensures |Cleanup(s, ttlSeconds, unix, clock).grants| <= |s.grants|
    ensures forall k :: k in s.grants ==>
      (k in Cleanup(s, ttlSeconds, unix, clock).grants <==> Current(s.grants[k], ttlSeconds, unix, clock))
  {
    SubsetSize(Cleanup(s, ttlSeconds, unix, clock).grants.Keys, s.grants.Keys);
  }

  lemma {:induction false} InsertKeeps(s: Store, key: GrantKey, record: GrantRecord, maximum: nat, victim: GrantKey)
    requires Consistent(s) && (key.session in s.sessions ==> s.sessions[key.session] == key)
    requires key !in s.grants && |s.grants| >= Max(maximum, 1) ==> victim in s.grants
    ensures Consistent(Insert(s, key, record, maximum, victim))
    ensures |Insert(s, key, record, maximum, victim).grants| <= Max(|s.grants|, Max(maximum, 1))
  {
    var s1 := if key !in s.grants && |s.grants| >= Max(maximum, 1) then RemoveGrant(s, victim) else s;
    RemoveKeeps(s, victim);
    RemoveKeeps(s1, key);
    PutKeeps(RemoveGrant(s1, key), key, record);
  }

  lemma {:induction false} PutKeeps(s: Store, key: GrantKey, record: GrantRecord)
    requires Consistent(s) && key !in s.grants && key.session !in s.sessions
    ensures Consistent(Store(s.grants[key := record], s.sessions[key.session := key],
                             s.responses[ResponseOf(key) := key], s.rates))
  {
    assert ResponseOf(key) in s.responses ==> s.responses[ResponseOf(key)].session == key.session;
  }
}
