/** The cache of token introspection verdicts, held against the history of what was stored in it. */
module IntrospectionCaches {
  import opened Basics
  import opened Texts

  datatype TokenHash = TokenHash(bytes: Bytes)

  datatype Verdict = Verdict(active: bool, reason: Text)

  datatype Config = Config(positiveSeconds: nat, negativeSeconds: nat, maxEntries: nat, skewSeconds: nat)

  /** What the configuration admits. */
  predicate Admissible(c: Config) {
    1 <= c.positiveSeconds <= 60 && c.negativeSeconds <= 1 && 1 <= c.maxEntries <= 1_000_000 && c.skewSeconds <= 300
  }

  /**
   A verdict as it was stored: `seenAt` is the wall clock in seconds read before the request,
   `at` the instant in milliseconds at which the answer was stored.
   */
  datatype Stored = Stored(hash: TokenHash, verdict: Verdict, tokenExpiry: nat, seenAt: nat, at: nat)

  datatype Entry = Entry(verdict: Verdict, expiresAt: nat, sequence: nat)

  function Ttl(c: Config, s: Stored): nat {
    if s.verdict.active then Min(c.positiveSeconds, Elapsed(s.tokenExpiry, s.seenAt)) else c.negativeSeconds
  }

  function ExpiresAt(c: Config, s: Stored): nat {
    s.at + 1000 * Ttl(c, s)
  }

  /** Such a verdict is worth keeping: one that allows, for a token not yet out, or one that denies. */
  predicate Worth(c: Config, s: Stored) {
    if s.verdict.active then c.positiveSeconds > 0 && s.seenAt < s.tokenExpiry else c.negativeSeconds > 0
  }

  /**
   One that allows lasts for the positive time, and no longer than the token had to live; one that
   denies, the negative.
   */
  predicate Lasts(c: Config, s: Stored, now: nat) {
    if s.verdict.active
    then now < s.at + 1000 * c.positiveSeconds && now < s.at + 1000 * (s.tokenExpiry - s.seenAt)
    else now < s.at + 1000 * c.negativeSeconds
  }

  lemma {:induction false} LastsExactly(c: Config, s: Stored, now: nat)
    ensures Ttl(c, s) > 0 <==> Worth(c, s)
    ensures Worth(c, s) ==> (now < ExpiresAt(c, s) <==> Lasts(c, s, now))
  {
  }

  // The history.

  /** The `n`th store is the latest for its hash. */
  ghost predicate Latest(stores: seq<Stored>, n: nat) {
    n < |stores| && forall j :: n < j < |stores| ==> stores[j].hash != stores[n].hash
  }

  /** The hashes stored after the `n`th store. */
  ghost function Later(stores: seq<Stored>, n: nat): set<TokenHash> {
    set j | n < j < |stores| :: stores[j].hash
  }

  /** Every entry is the latest store of its hash. */
  ghost predicate Faithful(c: Config, entries: map<TokenHash, Entry>, stores: seq<Stored>) {
    forall h :: h in entries ==> EntryOf(c, entries[h], stores, h)
  }

  ghost predicate EntryOf(c: Config, e: Entry, stores: seq<Stored>, h: TokenHash) {
    && 1 <= e.sequence <= |stores| && Latest(stores, e.sequence - 1) && stores[e.sequence - 1].hash == h
    && e.verdict == stores[e.sequence - 1].verdict && e.expiresAt == ExpiresAt(c, stores[e.sequence - 1])
    && Worth(c, stores[e.sequence - 1])
  }

  ghost predicate Current(c: Config, stores: seq<Stored>, n: nat, now: nat) {
    Latest(stores, n) && Lasts(c, stores[n], now)
  }

  /** The `n`th store is the latest of one of the `maxEntries` most recently stored hashes, and unexpired. */
  ghost predicate Recent(c: Config, stores: seq<Stored>, n: nat, now: nat) {
    Current(c, stores, n, now) && |Later(stores, n)| < c.maxEntries
  }

  ghost predicate Retains(c: Config, entries: map<TokenHash, Entry>, stores: seq<Stored>, now: nat) {
    forall n: nat :: Recent(c, stores, n, now) ==> stores[n].hash in entries
  }

  ghost predicate IsOldest(entries: map<TokenHash, Entry>, h: TokenHash) {
    h in entries && forall x :: x in entries ==> entries[h].sequence <= entries[x].sequence
  }

  // One more store.

  lemma {:induction false} StoredFaithful(c: Config, entries: map<TokenHash, Entry>, stores: seq<Stored>, s: Stored)
    requires Faithful(c, entries, stores) && Worth(c, s)
    ensures Faithful(c, entries[s.hash := Entry(s.verdict, ExpiresAt(c, s), |stores| + 1)], stores + [s])
  {
    var stores' := stores + [s];
    forall h | h in entries && h != s.hash
      ensures EntryOf(c, entries[h], stores', h)
    {
      assert EntryOf(c, entries[h], stores, h);
    }
  }

  lemma {:induction false} LaterGrows(stores: seq<Stored>, s: Stored, n: nat)
    requires n < |stores|
    ensures Later(stores, n) <= Later(stores + [s], n)
  {
    forall h | h in Later(stores, n)
      ensures h in Later(stores + [s], n)
    {
      var j :| n < j < |stores| && stores[j].hash == h;
      assert (stores + [s])[j].hash == h;
    }
  }

  lemma {:induction false} StoredRetains(
    c: Config, entries: map<TokenHash, Entry>, stores: seq<Stored>, s: Stored, now: nat)
    requires Retains(c, entries, stores, now)
    ensures Retains(c, entries[s.hash := Entry(s.verdict, ExpiresAt(c, s), |stores| + 1)], stores + [s], now)
  {
    forall n: nat | Recent(c, stores + [s], n, now)
      ensures (stores + [s])[n].hash in entries[s.hash := Entry(s.verdict, ExpiresAt(c, s), |stores| + 1)]
    {
      if n < |stores| {
        LaterGrows(stores, s, n);
        SubsetSize(Later(stores, n), Later(stores + [s], n));
        assert forall j :: n < j < |stores| ==> (stores + [s])[j] == stores[j];
        assert Recent(c, stores, n, now);
      }
    }
  }

  /** With more entries than the limit, the oldest has at least that many hashes stored after it. */
  lemma {:induction false} OldestIsStale(c: Config, entries: map<TokenHash, Entry>, stores: seq<Stored>, h: TokenHash)
    requires Faithful(c, entries, stores) && IsOldest(entries, h) && |entries| > c.maxEntries
    ensures |Later(stores, entries[h].sequence - 1)| >= c.maxEntries
  {
    var n := entries[h].sequence - 1;
    assert EntryOf(c, entries[h], stores, h);
    forall x | x in entries.Keys - {h}
      ensures x in Later(stores, n)
    {
      assert EntryOf(c, entries[x], stores, x);
      assert stores[entries[x].sequence - 1].hash == x;
    }
    SubsetSize(entries.Keys - {h}, Later(stores, n));
    assert |entries.Keys| == |entries|;
  }

  /** Evicting the oldest of too many entries loses nothing that is promised. */
  lemma {:induction false} EvictKeeps(
    c: Config, entries: map<TokenHash, Entry>, stores: seq<Stored>, h: TokenHash, now: nat)
    requires Faithful(c, entries, stores) && Retains(c, entries, stores, now)
    requires IsOldest(entries, h) && |entries| > c.maxEntries
    ensures Faithful(c, entries - {h}, stores) && Retains(c, entries - {h}, stores, now)
    ensures |entries - {h}| == |entries| - 1
  {
    OldestIsStale(c, entries, stores, h);
    assert EntryOf(c, entries[h], stores, h);
    assert (entries - {h}).Keys == entries.Keys - {h};
    forall n: nat | Recent(c, stores, n, now)
      ensures stores[n].hash in entries - {h}
    {
      LatestUnique(stores, n, entries[h].sequence - 1);
    }
  }

  lemma {:induction false} LatestUnique(stores: seq<Stored>, n: nat, m: nat)
    requires Latest(stores, n) && Latest(stores, m)
    ensures stores[n].hash == stores[m].hash ==> n == m
  {
  }

  function Unexpired(entries: map<TokenHash, Entry>, now: nat): map<TokenHash, Entry> {
    map h | h in entries && entries[h].expiresAt > now :: entries[h]
  }

  /** An entry is the verdict of the one latest store of its hash. */
  lemma {:induction false} EntryIsLatest(c: Config, e: Entry, stores: seq<Stored>, h: TokenHash, n: nat)
    requires EntryOf(c, e, stores, h) && Latest(stores, n) && stores[n].hash == h
    ensures e.verdict == stores[n].verdict && e.expiresAt == ExpiresAt(c, stores[n]) && Worth(c, stores[n])
  {
    LatestUnique(stores, n, e.sequence - 1);
  }

  /** Dropping what has expired loses nothing that is promised from then on. */
  lemma {:induction false} ExpireKeeps(
    c: Config, entries: map<TokenHash, Entry>, stores: seq<Stored>, before: nat, now: nat)
    requires Faithful(c, entries, stores) && Retains(c, entries, stores, before) && before <= now
    ensures Faithful(c, Unexpired(entries, now), stores) && Retains(c, Unexpired(entries, now), stores, now)
    ensures |Unexpired(entries, now)| <= |entries|
  {
    forall n: nat | Recent(c, stores, n, now)
      ensures stores[n].hash in Unexpired(entries, now)
    {
      assert Recent(c, stores, n, before);
      EntryIsLatest(c, entries[stores[n].hash], stores, stores[n].hash, n);
      LastsExactly(c, stores[n], now);
    }
    SubsetSize(Unexpired(entries, now).Keys, entries.Keys);
  }

  // How long a positive verdict can be served.

  /** The verdict's request took this long, counted from the second in which the clock was read. */
  function Lag(s: Stored): int {
    s.at - 1000 * s.seenAt
  }

  /** A token that has run out by more than the skew is refused before the cache is asked. */
  predicate Admits(c: Config, tokenExpiry: nat, wall: nat) {
    wall <= tokenExpiry + c.skewSeconds
  }

  /** The stored verdict is served at this instant, `t / 1000` being what the wall clock then shows. */
  predicate ServedAt(c: Config, s: Stored, t: nat) {
    s.at <= t && Lasts(c, s, t) && Admits(c, s.tokenExpiry, t / 1000)
  }

  /**
   A stored positive verdict is still served at some moment after its token expired exactly
   when the request took longer than what the token's remaining life exceeds the cache time by,
   and its answer came before the token was out by more than the skew.
   */
  lemma {:induction false} OutlivesExactly(c: Config, s: Stored)
    requires s.verdict.active && Worth(c, s)
    ensures (exists t: nat :: ServedAt(c, s, t) && t >= 1000 * s.tokenExpiry)
       <==> Lag(s) > 1000 * Elapsed(s.tokenExpiry - s.seenAt, c.positiveSeconds)
            && s.at < 1000 * (s.tokenExpiry + c.skewSeconds + 1)
  {
    assert s.tokenExpiry > s.seenAt;
    if Lag(s) > 1000 * Elapsed(s.tokenExpiry - s.seenAt, c.positiveSeconds)
       && s.at < 1000 * (s.tokenExpiry + c.skewSeconds + 1)
    {
      assert ServedAt(c, s, Max(s.at, 1000 * s.tokenExpiry));
    }
  }

  /** What the introspection endpoint comes back with, if a permit for the request was free at all. */
  datatype Answer =
    | NoPermit
    | Unreachable(reason: Text)
    | Replied(active: bool, subject: Option<Text>, why: Option<Text>)

  function DenialReason(reason: Option<Text>): Text {
    if reason == Some("user_disabled") || reason == Some("deleted_user") then "user_disabled"
    else if reason == Some("expired") then "expired" else "revoked"
  }

  /** Only an active reply for the token's own subject allows. */
  function Judge(a: Answer, subject: Text): Verdict {
    match a
    case NoPermit => Verdict(false, "introspection_unavailable")
    case Unreachable(reason) => Verdict(false, reason)
    case Replied(active, who, why) =>
      if !active then Verdict(false, DenialReason(why))
      else if who == Some(subject) then Verdict(true, "allow") else Verdict(false, "subject_mismatch")
  }

  /** What a denial says, and that nothing else allows. */
  lemma {:induction false} JudgedExactly(a: Answer, subject: Text)
    ensures Judge(a, subject).active <==> a == Replied(true, Some(subject), if a.Replied? then a.why else None)
    ensures var reason := Judge(a, subject).reason;
      && (a.NoPermit? ==> reason == "introspection_unavailable") && (a.Unreachable? ==> reason == a.reason)
      && (a.Replied? && a.active ==> reason == if a.subject == Some(subject) then "allow" else "subject_mismatch")
      && (a.Replied? && !a.active && a.why in {Some("user_disabled"), Some("deleted_user")} ==>
            reason == "user_disabled")
      && (a.Replied? && !a.active && a.why == Some("expired") ==> reason == "expired")
      && (a.Replied? && !a.active && a.why !in {Some("user_disabled"), Some("deleted_user"), Some("expired")} ==>
            reason == "revoked")
  {
  }

  /** How a request fares before the endpoint is asked. */
  datatype Reply = Expired | Hit(verdict: Verdict) | Miss

  class Cache {
    const config: Config
    var entries: map<TokenHash, Entry>
    var sequence: nat
    ghost var stores: seq<Stored>
    ghost var clock: nat

    ghost predicate Valid()
      reads this
    {
      && sequence == |stores| && |entries| <= config.maxEntries
      && Faithful(config, entries, stores) && Retains(config, entries, stores, clock)
    }

    constructor (config: Config)
      ensures Valid() && stores == [] && clock == 0 && this.config == config
    {
      this.config := config;
      entries, sequence, stores, clock := map[], 0, [], 0;
    }

    /**
     A hit is the latest stored verdict for the hash, still unexpired; and the latest
     verdict of each of the `maxEntries` most recently stored hashes does hit until it expires.
     */
    method Lookup(hash: TokenHash, now: nat) returns (hit: Option<Verdict>)
      requires Valid() && clock <= now
      modifies this
      ensures Valid() && stores == old(stores) && clock == now
      ensures hit.Some? ==> exists n: nat :: Current(config, stores, n, now) && stores[n].hash == hash
                                             && hit.value == stores[n].verdict
      ensures forall n: nat :: Recent(config, stores, n, now) && stores[n].hash == hash ==>
          hit == Some(stores[n].verdict)
    {
      ExpireKeeps(config, entries, stores, clock, now);
      entries := Unexpired(entries, now);
      clock := now;
      if hash in entries {
        hit := Some(entries[hash].verdict);
        assert EntryOf(config, entries[hash], stores, hash);
        LastsExactly(config, stores[entries[hash].sequence - 1], now);
        assert Current(config, stores, entries[hash].sequence - 1, now);
        forall n: nat | Recent(config, stores, n, now) && stores[n].hash == hash
          ensures hit == Some(stores[n].verdict)
        {
          EntryIsLatest(config, entries[hash], stores, hash, n);
        }
      } else {
        hit := None;
      }
    }

    method FindOldest() returns (oldest: TokenHash)
      requires entries != map[]
      ensures IsOldest(entries, oldest)
    {
      oldest :| oldest in entries;
      var left := entries.Keys - {oldest};
      while left != {}
        invariant left <= entries.Keys && oldest in entries
        invariant forall x :: x in entries && x !in left ==> entries[oldest].sequence <= entries[x].sequence
        decreases left
      {
        var x :| x in left;
        left := left - {x};
        if entries[x].sequence < entries[oldest].sequence {
          oldest := x;
        }
      }
    }

    /** A verdict with no time to live is not kept; any other becomes the latest for its hash. */
    method Store(s: Stored)
      requires Valid()
      modifies this
      ensures Valid() && clock == old(clock)
      ensures stores == if Worth(config, s) then old(stores) + [s] else old(stores)
    {
      LastsExactly(config, s, 0);
      if Ttl(config, s) == 0 {
        return;
      }
      sequence := sequence + 1;
      StoredFaithful(config, entries, stores, s);
      StoredRetains(config, entries, stores, s, clock);
      entries := entries[s.hash := Entry(s.verdict, ExpiresAt(config, s), sequence)];
      stores := stores + [s];
      while |entries| > config.maxEntries
        invariant sequence == |stores| && stores == old(stores) + [s] && clock == old(clock)
        invariant Faithful(config, entries, stores) && Retains(config, entries, stores, clock)
        decreases |entries|
      {
        var oldest := FindOldest();
        EvictKeeps(config, entries, stores, oldest, clock);
        entries := entries - {oldest};
      }
    }

    /**
     A request for the token, at wall clock `wall`: refused when the token is out, otherwise answered
     with the latest stored verdict while that is current, and always so for the most recent hashes.
     */
    method Ask(hash: TokenHash, tokenExpiry: nat, wall: nat, now: nat) returns (r: Reply)
      requires Valid() && clock <= now
      modifies this
      ensures Valid() && stores == old(stores) && clock <= now
      ensures r.Expired? <==> wall > tokenExpiry + config.skewSeconds
      ensures r.Hit? ==> exists n: nat :: Current(config, stores, n, now) && stores[n].hash == hash
                                          && r.verdict == stores[n].verdict
      ensures forall n: nat :: Latest(stores, n) && stores[n].hash == hash ==>
          && (r.Hit? ==> r.verdict == stores[n].verdict)
          && (r.Hit? && !r.verdict.active ==> now < stores[n].at + 1000 * config.negativeSeconds)
          && (r.Hit? && r.verdict.active ==>
                && now < stores[n].at + 1000 * config.positiveSeconds
                && now < stores[n].at + 1000 * (stores[n].tokenExpiry - stores[n].seenAt))
      ensures forall n: nat :: !r.Expired? && Recent(config, stores, n, now) && stores[n].hash == hash ==>
                                 r == Hit(stores[n].verdict)
    {
      if tokenExpiry + config.skewSeconds < wall {
        return Expired;
      }
      var hit := Lookup(hash, now);
      forall n: nat, m: nat | Latest(stores, n) && Current(config, stores, m, now) && stores[n].hash == stores[m].hash
        ensures n == m
      {
        LatestUnique(stores, n, m);
      }
      return if hit.Some? then Hit(hit.value) else Miss;
    }

    /**
     The answer to a request that missed, whatever else was asked and stored meanwhile: judged,
     and remembered unless it never got a permit or has no time to live.
     */
    method Learn(hash: TokenHash, subject: Text, tokenExpiry: nat, wall: nat, answer: Answer, at: nat)
      returns (verdict: Verdict)
      requires Valid()
      modifies this
      ensures Valid() && clock == old(clock)
      ensures verdict.active <==> answer.Replied? && answer.active && answer.subject == Some(subject)
      ensures verdict.active ==> verdict.reason == "allow"
      ensures var s := Stored(hash, verdict, tokenExpiry, wall, at);
        stores == if !answer.NoPermit? && Worth(config, s) then old(stores) + [s] else old(stores)
      ensures verdict == Judge(answer, subject)
    {
      verdict := Judge(answer, subject);
      if !answer.NoPermit? {
        Store(Stored(hash, verdict, tokenExpiry, wall, at));
      }
    }
  }

  /**
   Under the default configuration a token with five seconds to live, whose answer takes four,
   is allowed from the cache two seconds after it expired.
   */
  method SlowAnswerOutlives(hash: TokenHash, user: Text) returns (config: Config, tokenExpiry: nat, now: nat, r: Reply)
    ensures Admissible(config) && now > 1000 * tokenExpiry && r == Hit(Verdict(true, "allow"))
  {
    config, tokenExpiry, now := Config(10, 1, 100_000, 30), 10, 12_000;
    var cache := new Cache(config);
    var first := cache.Ask(hash, tokenExpiry, 5, 5_000);
    var verdict := cache.Learn(hash, user, tokenExpiry, 5, Replied(true, Some(user), None), 9_000);
    assert Later(cache.stores, 0) == {};
    assert Recent(config, cache.stores, 0, now);
    r := cache.Ask(hash, tokenExpiry, now / 1000, now);
  }
}
