/** Two guards of the relay's telemetry endpoint: the nonce replay cache and the probe limiter. */
module RelayLimits {
  import opened Basics
  import opened Texts
  import opened RelayWire

  const CLOCK_SKEW_SECONDS := 30
  const REPLAY_CAPACITY := 4096
  const IP_CAPACITY := 4096

  // Nonces.

  datatype Seen = Seen(at: nat, nonce: Text)

  ghost predicate Chronological(h: seq<Seen>) {
    forall i, j :: 0 <= i < j < |h| ==> h[i].at <= h[j].at
  }

  ghost predicate NoncesDistinct(h: seq<Seen>) {
    forall i, j :: 0 <= i < j < |h| ==> h[i].nonce != h[j].nonce
  }

  ghost function Nonces(h: seq<Seen>): set<Text> {
    set i | 0 <= i < |h| :: h[i].nonce
  }

  predicate Stale(s: Seen, now: nat) {
    Elapsed(now, s.at) > CLOCK_SKEW_SECONDS
  }

  /** The nonce is among the last 4096 accepted ones and no older than 30 seconds. */
  ghost predicate Remembered(history: seq<Seen>, nonce: Text, now: nat) {
    exists i :: 0 <= i < |history| && |history| - 4096 <= i && history[i].nonce == nonce && now <= history[i].at + 30
  }

  lemma {:induction false} NoncesTail(h: seq<Seen>)
    requires h != [] && NoncesDistinct(h)
    ensures Nonces(h[1..]) == Nonces(h) - {h[0].nonce} && NoncesDistinct(h[1..])
  {
    forall x | x in Nonces(h) - {h[0].nonce}
      ensures x in Nonces(h[1..])
    {
      var i :| 0 <= i < |h| && h[i].nonce == x;
      assert h[1..][i - 1].nonce == x;
    }
    forall x | x in Nonces(h[1..])
      ensures x in Nonces(h) - {h[0].nonce}
    {
      var i :| 0 <= i < |h[1..]| && h[1..][i].nonce == x;
      assert h[i + 1].nonce == x;
    }
  }

  lemma {:induction false} NoncesPush(h: seq<Seen>, s: Seen)
    requires NoncesDistinct(h) && s.nonce !in Nonces(h)
    ensures Nonces(h + [s]) == Nonces(h) + {s.nonce} && NoncesDistinct(h + [s])
  {
    forall i | 0 <= i < |h|
      ensures h[i].nonce in Nonces(h) && (h + [s])[i] == h[i]
    {
    }
    assert (h + [s])[|h|] == s;
    forall x | x in Nonces(h + [s])
      ensures x in Nonces(h) + {s.nonce}
    {
      var i :| 0 <= i < |h + [s]| && (h + [s])[i].nonce == x;
    }
  }

  /**
   What was accepted and is no longer kept is stale, or has `REPLAY_CAPACITY` accepted after it,
   `coming` included.
   */
  ghost predicate Forgotten(history: seq<Seen>, kept: nat, coming: nat, now: nat) {
    forall i :: 0 <= i < |history| - kept ==> Stale(history[i], now) || i + REPLAY_CAPACITY < |history| + coming
  }

  /** The queue is the end of the history, the set its nonces. */
  ghost predicate Keeps(entries: set<Text>, order: seq<Seen>, history: seq<Seen>, coming: nat, now: nat) {
    && |order| <= Min(|history|, REPLAY_CAPACITY) && order == history[|history| - |order|..]
    && NoncesDistinct(order) && entries == Nonces(order)
    && Chronological(history) && (forall i :: 0 <= i < |history| ==> history[i].at <= now)
    && Forgotten(history, |order|, coming, now)
  }

  lemma {:induction false} LaterKeeps(
    entries: set<Text>, order: seq<Seen>, history: seq<Seen>, coming: nat, before: nat, now: nat)
    requires Keeps(entries, order, history, 0, before) && before <= now
    ensures Keeps(entries, order, history, coming, now)
  {
  }

  lemma {:induction false} PopKeeps(entries: set<Text>, order: seq<Seen>, history: seq<Seen>, coming: nat, now: nat)
    requires Keeps(entries, order, history, coming, now) && order != []
    requires Stale(order[0], now) || (coming > 0 && |order| >= REPLAY_CAPACITY)
    ensures Keeps(entries - {order[0].nonce}, order[1..], history, coming, now)
  {
    NoncesTail(order);
    assert order[0] == history[|history| - |order|];
  }

  lemma {:induction false} PushKeeps(entries: set<Text>, order: seq<Seen>, history: seq<Seen>, now: nat, nonce: Text)
    requires Keeps(entries, order, history, 1, now) && |order| < REPLAY_CAPACITY && nonce !in entries
    ensures Keeps(entries + {nonce}, order + [Seen(now, nonce)], history + [Seen(now, nonce)], 0, now)
  {
    NoncesPush(order, Seen(now, nonce));
  }

  /** Once the front is current, so is everything behind it. */
  lemma {:induction false} FrontDecides(entries: set<Text>, order: seq<Seen>, history: seq<Seen>, now: nat, nonce: Text)
    requires Keeps(entries, order, history, 0, now) && (order == [] || !Stale(order[0], now))
    ensures nonce in entries <==> Remembered(history, nonce, now)
  {
    var k := |history| - |order|;
    if nonce in entries {
      var i :| 0 <= i < |order| && order[i].nonce == nonce;
      assert history[k + i] == order[i] && history[k] == order[0];
      assert !Stale(history[k + i], now);
    }
    if Remembered(history, nonce, now) {
      var i :| 0 <= i < |history| && |history| - 4096 <= i && history[i].nonce == nonce && now <= history[i].at + 30;
      assert order[i - k] == history[i];
    }
  }

  class ReplayCache {
    var entries: set<Text>
    var order: seq<Seen>
    ghost var history: seq<Seen>
    ghost var clock: nat

    ghost predicate Valid()
      reads this
    {
      Keeps(entries, order, history, 0, clock)
    }

    constructor ()
      ensures Valid() && history == [] && clock == 0
    {
      entries, order, history, clock := {}, [], [], 0;
    }

    /** A nonce is refused exactly when it is remembered. */
    method InsertFresh(now: nat, nonce: Text) returns (ok: bool)
      requires Valid() && clock <= now
      modifies this
      ensures Valid() && clock == now
      ensures ok <==> !Remembered(old(history), nonce, now)
      ensures history == if ok then old(history) + [Seen(now, nonce)] else old(history)
    {
      LaterKeeps(entries, order, history, 0, clock, now);
      clock := now;
      while order != [] && Stale(order[0], now)
        invariant Keeps(entries, order, history, 0, now) && history == old(history) && clock == now
        decreases |order|
      {
        PopKeeps(entries, order, history, 0, now);
        entries := entries - {order[0].nonce};
        order := order[1..];
      }
      FrontDecides(entries, order, history, now, nonce);
      if nonce in entries {
        return false;
      }
      LaterKeeps(entries, order, history, 1, now, now);
      while |order| >= REPLAY_CAPACITY
        invariant Keeps(entries, order, history, 1, now) && nonce !in entries && history == old(history) && clock == now
        decreases |order|
      {
        PopKeeps(entries, order, history, 1, now);
        entries := entries - {order[0].nonce};
        order := order[1..];
      }
      PushKeeps(entries, order, history, now, nonce);
      entries := entries + {nonce};
      order := order + [Seen(now, nonce)];
      history := history + [Seen(now, nonce)];
      return true;
    }
  }

  // Probes.

  /** The probes let through in the current minute. */
  datatype Minute = Minute(window: nat, accepted: multiset<Ip>)

  datatype Limits = Limits(total: nat, perIp: nat)

  ghost function Sources(m: multiset<Ip>): set<Ip> {
    set x | x in m
  }

  function InMinute(m: Minute, now: nat): Minute {
    if m.window == now / 60 then m else Minute(now / 60, multiset{})
  }

  ghost predicate Admits(m: Minute, source: Ip, l: Limits) {
    && |m.accepted| < Max(l.total, 1) && m.accepted[source] < Max(l.perIp, 1)
    && (source in m.accepted || |Sources(m.accepted)| < 4096)
  }

  ghost function Probed(m: Minute, source: Ip, now: nat, l: Limits): Minute {
    var current := InMinute(m, now);
    if Admits(current, source, l) then current.(accepted := current.accepted + multiset{source}) else current
  }

  /** The sum of a table of counts. */
  ghost function Total(counts: map<Ip, nat>): nat
    decreases |counts|
  {
    if counts == map[] then 0
    else
      var x :| x in counts;
      counts[x] + Total(counts - {x})
  }

  /** The table holds the multiplicities of the accepted sources. */
  ghost predicate Tallies(counts: map<Ip, nat>, accepted: multiset<Ip>) {
    && (forall x :: x in counts <==> x in accepted)
    && (forall x :: x in counts ==> counts[x] == accepted[x])
  }

  /** So its counts add up to the number accepted. */
  lemma {:induction false} TotalIsAccepted(counts: map<Ip, nat>, accepted: multiset<Ip>)
    requires Tallies(counts, accepted)
    ensures Total(counts) == |accepted|
    decreases |counts|
  {
    if counts == map[] {
      assert forall x :: x !in accepted;
      assert accepted == multiset{};
    } else {
      var x :| x in counts && Total(counts) == counts[x] + Total(counts - {x});
      assert forall y :: y in counts - {x} <==> y in accepted[x := 0];
      TotalIsAccepted(counts - {x}, accepted[x := 0]);
    }
  }

  lemma {:induction false} TalliesDecide(counts: map<Ip, nat>, m: Minute, source: Ip, l: Limits)
    requires Tallies(counts, m.accepted)
    ensures Admits(m, source, l) <==>
      && |m.accepted| < Max(l.total, 1) && (source in counts || |counts| < IP_CAPACITY)
      && (if source in counts then counts[source] else 0) < Max(l.perIp, 1)
  {
    assert Sources(m.accepted) == counts.Keys;
    assert |counts.Keys| == |counts|;
  }

  lemma {:induction false} TalliesAdd(counts: map<Ip, nat>, accepted: multiset<Ip>, source: Ip)
    requires Tallies(counts, accepted)
    ensures Tallies(counts[source := (if source in counts then counts[source] else 0) + 1], accepted + multiset{source})
  {
  }

  class ProbeLimiter {
    var window: nat
    var total: nat
    var perIp: map<Ip, nat>
    ghost var minute: Minute

    ghost predicate Valid()
      reads this
    {
      window == minute.window && total == |minute.accepted| && Tallies(perIp, minute.accepted)
    }

    constructor ()
      ensures Valid() && minute == Minute(0, multiset{})
    {
      window, total, perIp, minute := 0, 0, map[], Minute(0, multiset{});
    }

    /** A new minute starts from nothing. */
    method Roll(now: nat)
      requires Valid()
      modifies this
      ensures Valid() && minute == InMinute(old(minute), now)
    {
      minute := InMinute(minute, now);
      if window != now / 60 {
        window, total, perIp := now / 60, 0, map[];
      }
    }

    method Allow(source: Ip, now: nat, l: Limits) returns (ok: bool)
      requires Valid()
      modifies this
      ensures Valid()
      ensures ok <==> Admits(InMinute(old(minute), now), source, l)
      ensures minute == Probed(old(minute), source, now, l)
    {
      Roll(now);
      TalliesDecide(perIp, minute, source, l);
      if total >= Max(l.total, 1) || (source !in perIp && |perIp| >= IP_CAPACITY) {
        return false;
      }
      var count := if source in perIp then perIp[source] else 0;
      if count >= Max(l.perIp, 1) {
        return false;
      }
      assert Admits(minute, source, l);
      TalliesAdd(perIp, minute.accepted, source);
      total := total + 1;
      perIp := perIp[source := count + 1];
      minute := minute.(accepted := minute.accepted + multiset{source});
      return true;
    }

    /** In every valid state the global count is the sum of the per-source counts. */
    lemma {:induction false} GlobalIsSum()
      requires Valid()
      ensures total == Total(perIp)
    {
      TotalIsAccepted(perIp, minute.accepted);
    }
  }

  // Whole runs of the limiter.

  datatype Probe = Probe(source: Ip, now: nat)

  ghost function Played(probes: seq<Probe>, l: Limits): Minute {
    if probes == [] then Minute(0, multiset{})
    else Probed(Played(probes[..|probes| - 1], l), probes[|probes| - 1].source, probes[|probes| - 1].now, l)
  }

  ghost predicate PassedAt(probes: seq<Probe>, l: Limits, i: nat)
    requires i < |probes|
  {
    Admits(InMinute(Played(probes[..i], l), probes[i].now), probes[i].source, l)
  }

  /** The sources let through in minute `w`, with their multiplicity. */
  ghost function PassedIn(probes: seq<Probe>, l: Limits, w: nat): multiset<Ip> {
    if probes == [] then multiset{}
    else
      var n := |probes| - 1;
      PassedIn(probes[..n], l, w) +
      if probes[n].now / 60 == w && PassedAt(probes, l, n) then multiset{probes[n].source} else multiset{}
  }

  ghost predicate Ordered(probes: seq<Probe>) {
    forall i, j :: 0 <= i < j < |probes| ==> probes[i].now <= probes[j].now
  }

  lemma {:induction false} SourcesAdd(accepted: multiset<Ip>, x: Ip)
    ensures |Sources(accepted + multiset{x})| == |Sources(accepted)| + if x in accepted then 0 else 1
  {
    assert Sources(accepted + multiset{x}) == Sources(accepted) + {x};
    if x in accepted {
      assert Sources(accepted) + {x} == Sources(accepted);
    }
  }

  /** The table of sources never outgrows its capacity. */
  lemma {:induction false} SourcesBounded(probes: seq<Probe>, l: Limits)
    ensures |Sources(Played(probes, l).accepted)| <= 4096
  {
    if probes == [] {
      assert Sources(multiset{}) == {};
    } else {
      var n := |probes| - 1;
      SourcesBounded(probes[..n], l);
      var current := InMinute(Played(probes[..n], l), probes[n].now);
      assert Sources(multiset{}) == {};
      SourcesAdd(current.accepted, probes[n].source);
    }
  }

  /** The limiter's state is what passed in its minute, and nothing has passed in a later one. */
  lemma {:induction false} PlayedIsPassed(probes: seq<Probe>, l: Limits, w: nat)
    requires Ordered(probes)
    ensures var m := Played(probes, l);
      && m.window == (if probes == [] then 0 else probes[|probes| - 1].now / 60)
      && (w == m.window ==> PassedIn(probes, l, w) == m.accepted)
      && (w > m.window ==> PassedIn(probes, l, w) == multiset{})
  {
    if probes != [] {
      var n := |probes| - 1;
      PlayedIsPassed(probes[..n], l, w);
    }
  }

  /** With a clock that does not run back, no minute lets through more than its limits. */
  lemma {:induction false} MinuteBound(probes: seq<Probe>, l: Limits, w: nat, source: Ip)
    requires Ordered(probes)
    ensures |PassedIn(probes, l, w)| <= Max(l.total, 1)
    ensures PassedIn(probes, l, w)[source] <= Max(l.perIp, 1)
  {
    if probes != [] {
      var n := |probes| - 1;
      MinuteBound(probes[..n], l, w, source);
      PlayedIsPassed(probes[..n], l, w);
      PlayedIsPassed(probes, l, w);
    }
  }
}
