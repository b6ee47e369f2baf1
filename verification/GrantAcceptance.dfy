/** What the store of issued grants promises over whole runs. */
module GrantAcceptance {
  import opened Basics
  import opened Texts
  import opened RelayWire
  import opened RelayGrants
  import opened GrantStore

  // Runs of the store.

  datatype Operation =
    | Authorizing(policy: Policy, request: Request, victim: GrantKey, idle: Ip)
    | Responding(policy: Policy, session: Text, source: Ip, relay: Text, unix: nat, clock: nat)

  /** Every public entry point first drops what has expired. */
  function Serve(sign: Grant -> Bytes, s: Store, op: Operation): (Store, Option<Bytes>) {
    match op
    case Authorizing(p, r, victim, idle) =>
      Authorize(sign, Cleaned(s, op), p, r, victim, idle)
    case Responding(p, session, source, relay, unix, _) =>
      (Cleaned(s, op), Respond(Cleaned(s, op), p, session, source, relay, unix))
  }

  function Cleaned(s: Store, op: Operation): Store {
    match op
    case Authorizing(p, r, _, _) => Cleanup(s, p.ttlSeconds, if r.unix.Some? then r.unix.value else 0, r.clock)
    case Responding(p, _, _, _, unix, clock) => Cleanup(s, p.ttlSeconds, unix, clock)
  }

  /** The entry evicted for lack of room is one of the oldest. */
  ghost predicate Legal(s: Store, op: Operation) {
    op.Authorizing? && Evicts(Cleaned(s, op), op.policy, op.request) ==> Oldest(Cleaned(s, op).grants, op.victim)
  }

  /** The record holds two signatures over one grant, differing in the endpoint role alone. */
  ghost predicate Genuine(sign: Grant -> Bytes, key: GrantKey, record: GrantRecord) {
    exists g: Grant :: PairOf(sign, key, record, g)
  }

  ghost predicate PairOf(sign: Grant -> Bytes, key: GrantKey, record: GrantRecord, g: Grant) {
    && g.sessionUuid == key.session && g.expiresAt == record.expiresAt && g.relayServer == record.relay
    && g.allowFastMedia == record.fastMedia
    && record.targetSigned == sign(g.(relayEndpointRole := if record.fastMedia then TARGET as nat else 0))
    && record.controllerSigned == sign(g.(relayEndpointRole := if record.fastMedia then CONTROLLER as nat else 0))
  }

  ghost predicate AllGenuine(sign: Grant -> Bytes, s: Store) {
    forall k :: k in s.grants ==> Genuine(sign, k, s.grants[k])
  }

  lemma {:induction false} NewRecordGenuine(sign: Grant -> Bytes, p: Policy, r: Request)
    requires r.unix.Some? && NewRecord(sign, p, r).Some?
    ensures Genuine(sign, KeyOf(r), NewRecord(sign, p, r).value)
  {
    var media := p.fastMedia && r.endpoint.Some?;
    var g := BuildGrant(r.session, r.unix.value + p.ttlSeconds, p, Trim(r.relay),
                        if media then r.endpoint else None, r.freshId, if media then TARGET as nat else 0).value;
    assert PairOf(sign, KeyOf(r), NewRecord(sign, p, r).value, g);
  }

  ghost predicate Sound(sign: Grant -> Bytes, s: Store, cap: nat) {
    Consistent(s) && AllGenuine(sign, s) && |s.grants| <= Max(cap, 1)
  }

  lemma {:induction false} InsertGenuine(
    sign: Grant -> Bytes, s: Store, key: GrantKey, record: GrantRecord, maximum: nat, victim: GrantKey)
    requires AllGenuine(sign, s) && Genuine(sign, key, record)
    ensures AllGenuine(sign, Insert(s, key, record, maximum, victim))
  {
  }

  /** Where an authorization leaves the store: untouched but for the limiter, or with a new record. */
  ghost predicate Outcome(
    sign: Grant -> Bytes, s: Store, s': Store, p: Policy, r: Request, victim: GrantKey, rates: map<Ip, SigningRate>)
  {
    || s' == s.(rates := s'.rates)
    || (&& r.unix.Some? && NewRecord(sign, p, r).Some?
        && (r.session in s.sessions ==> s.sessions[r.session] == KeyOf(r))
        && s' == Insert(s.(rates := rates), KeyOf(r), NewRecord(sign, p, r).value, p.maxAuthorizations, victim))
  }

  lemma {:induction false} AuthorizeOutcome(
    sign: Grant -> Bytes, s: Store, p: Policy, r: Request, victim: GrantKey, idle: Ip)
    ensures Outcome(sign, s, Authorize(sign, s, p, r, victim, idle).0, p, r, victim,
                    ConsumeRate(s.rates, NormalizeIp(r.source), p.maxAuthorizations, idle, r.clock).0)
  {
  }

  lemma {:induction false} OutcomeKeeps(
    sign: Grant -> Bytes, s: Store, s': Store, p: Policy, r: Request, victim: GrantKey, rates: map<Ip, SigningRate>)
    requires Consistent(s) && (Evicts(s, p, r) ==> Oldest(s.grants, victim))
    requires Outcome(sign, s, s', p, r, victim, rates)
    ensures Consistent(s') && |s'.grants| <= Max(|s.grants|, Max(p.maxAuthorizations, 1))
  {
    if s' != s.(rates := s'.rates) {
      InsertKeeps(s.(rates := rates), KeyOf(r), NewRecord(sign, p, r).value, p.maxAuthorizations, victim);
    }
  }

  lemma {:induction false} OutcomeGenuine(
    sign: Grant -> Bytes, s: Store, s': Store, p: Policy, r: Request, victim: GrantKey, rates: map<Ip, SigningRate>)
    requires AllGenuine(sign, s) && Outcome(sign, s, s', p, r, victim, rates)
    ensures AllGenuine(sign, s')
  {
    if s' != s.(rates := s'.rates) {
      NewRecordGenuine(sign, p, r);
      InsertGenuine(sign, s.(rates := rates), KeyOf(r), NewRecord(sign, p, r).value, p.maxAuthorizations, victim);
    }
  }

  lemma {:induction false} AuthorizeKeeps(
    sign: Grant -> Bytes, s: Store, p: Policy, r: Request, victim: GrantKey, idle: Ip)
    requires Consistent(s) && AllGenuine(sign, s) && (Evicts(s, p, r) ==> Oldest(s.grants, victim))
    ensures var s' := Authorize(sign, s, p, r, victim, idle).0;
      Consistent(s') && AllGenuine(sign, s') && |s'.grants| <= Max(|s.grants|, Max(p.maxAuthorizations, 1))
  {
    AuthorizeOutcome(sign, s, p, r, victim, idle);
    var rates := ConsumeRate(s.rates, NormalizeIp(r.source), p.maxAuthorizations, idle, r.clock).0;
    OutcomeKeeps(sign, s, Authorize(sign, s, p, r, victim, idle).0, p, r, victim, rates);
    OutcomeGenuine(sign, s, Authorize(sign, s, p, r, victim, idle).0, p, r, victim, rates);
  }

  /**
   Through issue, reuse, replacement, eviction and expiry the three maps stay in exact
   correspondence, every stored pair is genuine, and the store stays within any cap that
   held before and is never configured larger.
   */
  lemma {:induction false} ServeKeeps(sign: Grant -> Bytes, s: Store, op: Operation, cap: nat)
    requires Sound(sign, s, cap) && Legal(s, op) && op.policy.maxAuthorizations <= cap
    ensures Sound(sign, Serve(sign, s, op).0, cap)
  {
    var unix := if op.Responding? then op.unix else if op.request.unix.Some? then op.request.unix.value else 0;
    var clock := if op.Responding? then op.clock else op.request.clock;
    CleanupKeeps(s, op.policy.ttlSeconds, unix, clock);
    if op.Authorizing? {
      AuthorizeKeeps(sign, Cleaned(s, op), op.policy, op.request, op.victim, op.idle);
    }
  }

  /** A run of the store from its start, each eviction taking an oldest grant. */
  ghost predicate IsHistory(sign: Grant -> Bytes, states: seq<Store>, ops: seq<Operation>) {
    && |states| == |ops| + 1 && states[0] == Store(map[], map[], map[], map[])
    && forall i :: 0 <= i < |ops| ==> ServedAt(sign, states, ops, i)
  }

  ghost predicate ServedAt(sign: Grant -> Bytes, states: seq<Store>, ops: seq<Operation>, i: nat)
    requires |states| == |ops| + 1 && i < |ops|
  {
    Legal(states[i], ops[i]) && states[i + 1] == Serve(sign, states[i], ops[i]).0
  }

  lemma {:induction false} ServedKeeps(sign: Grant -> Bytes, states: seq<Store>, ops: seq<Operation>, cap: nat, i: nat)
    requires |states| == |ops| + 1 && i < |ops| && ServedAt(sign, states, ops, i)
    requires ops[i].policy.maxAuthorizations <= cap && Sound(sign, states[i], cap)
    ensures Sound(sign, states[i + 1], cap)
  {
    ServeKeeps(sign, states[i], ops[i], cap);
  }

  /** Every state of every run under policies of at most `cap` grants is sound. */
  lemma {:induction false} StoreAlwaysSound(
    sign: Grant -> Bytes, states: seq<Store>, ops: seq<Operation>, cap: nat, n: nat)
    requires IsHistory(sign, states, ops) && n <= |ops|
    requires forall i :: 0 <= i < |ops| ==> ops[i].policy.maxAuthorizations <= cap
    ensures Sound(sign, states[n], cap)
  {
    if n > 0 {
      StoreAlwaysSound(sign, states, ops, cap, n - 1);
      ServedKeeps(sign, states, ops, cap, n - 1);
    }
  }

  /** A successful answer to the initiator is the stored, unexpired target half for its own key. */
  lemma {:induction false} AuthorizedIsStored(
    sign: Grant -> Bytes, s: Store, p: Policy, r: Request, victim: GrantKey, idle: Ip)
    requires Authorize(sign, s, p, r, victim, idle).1.Some?
    ensures var (s', signed) := Authorize(sign, s, p, r, victim, idle);
      && Acceptable(p, r) && KeyOf(r) in s'.grants && s'.grants[KeyOf(r)].targetSigned == signed.value
      && var record := s'.grants[KeyOf(r)];
         && r.unix.Some? && record.expiresAt > r.unix.value && record.generation == p.generation
         && record.quality == (if r.selection.Some? then Some(r.selection.value.allocation) else None)
         && EqIgnoreCase(record.relay, Trim(r.relay))
  {
    assert forall i :: 0 <= i < |Trim(r.relay)| ==> LowerCase(Trim(r.relay)[i]) == LowerCase(Trim(r.relay)[i]);
  }

  /** A request for the other half, from the address the grant names as its target. */
  function Reply(p: Policy, r: Request, source: Ip, relay: Text, unix: nat, clock: nat): Operation {
    Responding(p, r.session, source, relay, unix, clock)
  }

  /** The record issued or handed out by operation `n` has stood since, neither evicted nor replaced. */
  ghost predicate StoodSince(states: seq<Store>, n: nat, m: nat, key: GrantKey, record: GrantRecord)
    requires n < m < |states|
  {
    forall k :: n < k <= m ==> key in states[k].grants && states[k].grants[key] == record
  }

  /** What the store answers for the other half, whatever has been served in between. */
  lemma {:induction false} ResponseExact(sign: Grant -> Bytes, s: Store, p: Policy, r: Request, record: GrantRecord,
                                         source: Ip, relay: Text, unix: nat, clock: nat)
    requires Consistent(s) && KeyOf(r) in s.grants && s.grants[KeyOf(r)] == record
    requires r.session != "" && Size(r.session) <= MAX_SESSION_UUID_BYTES
    requires NormalizeIp(source) == NormalizeIp(r.target)
    ensures Serve(sign, s, Reply(p, r, source, relay, unix, clock)).1 ==
      if Current(record, p.ttlSeconds, unix, clock) && record.generation == p.generation
          && EqIgnoreCase(record.relay, relay)
      then Some(record.controllerSigned) else None
  {
    var s1 := Cleanup(s, p.ttlSeconds, unix, clock);
    CleanupKeeps(s, p.ttlSeconds, unix, clock);
    var key := ResponseKey(r.session, NormalizeIp(source));
    assert key == ResponseOf(KeyOf(r)) && s.responses[key] == KeyOf(r);
    assert KeyOf(r) in s1.grants <==> Current(record, p.ttlSeconds, unix, clock);
  }

  /**
   In every run: when a session was authorized, its other side is answered with the other half
   of the same pair exactly while the grant stands, is current, and policy and relay are the same.
   */
  lemma {:induction false} BothSidesServed(
    sign: Grant -> Bytes, states: seq<Store>, ops: seq<Operation>, cap: nat, n: nat, m: nat, record: GrantRecord,
    p: Policy, source: Ip, relay: Text, unix: nat, clock: nat)
    requires IsHistory(sign, states, ops) && n < m <= |ops| && ops[n].Authorizing?
    requires forall i :: 0 <= i < |ops| ==> ops[i].policy.maxAuthorizations <= cap
    requires Serve(sign, states[n], ops[n]).1.Some? && StoodSince(states, n, m, KeyOf(ops[n].request), record)
    requires NormalizeIp(source) == NormalizeIp(ops[n].request.target)
    ensures Genuine(sign, KeyOf(ops[n].request), record)
    ensures Serve(sign, states[n], ops[n]).1 == Some(record.targetSigned)
    ensures Serve(sign, states[m], Reply(p, ops[n].request, source, relay, unix, clock)).1 ==
      if Current(record, p.ttlSeconds, unix, clock) && record.generation == p.generation
          && EqIgnoreCase(record.relay, relay)
      then Some(record.controllerSigned) else None
  {
    var op, r := ops[n], ops[n].request;
    assert ServedAt(sign, states, ops, n);
    AuthorizedIsStored(sign, Cleaned(states[n], op), op.policy, r, op.victim, op.idle);
    assert KeyOf(r) in states[n + 1].grants && states[n + 1].grants[KeyOf(r)] == record;
    StoreAlwaysSound(sign, states, ops, cap, n + 1);
    StoreAlwaysSound(sign, states, ops, cap, m);
    ResponseExact(sign, states[m], p, r, record, source, relay, unix, clock);
  }
}
