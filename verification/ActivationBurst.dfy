/**
 The burst limiter over whole histories of calls. Calls of one identity come in the order of
 their clocks, because the peer's lock lets one request read the clock only after the one
 before; calls of different identities may overtake each other.
 */
module ActivationBurst {
  import opened Basics
  import opened ActivationTables
  import opened ActivationTraces

  /** The table after the first `n` calls. */
  function Table(calls: seq<Call>, n: nat): Bursts
    requires n <= |calls|
  {
    if n == 0 then map[]
    else CheckBurst(Table(calls, n - 1), calls[n - 1].counter, calls[n - 1].id, calls[n - 1].now).0
  }

  /** The answer to call `n`. */
  function Answer(calls: seq<Call>, n: nat): Verdict
    requires n < |calls|
  {
    CheckBurst(Table(calls, n), calls[n].counter, calls[n].id, calls[n].now).1
  }

  /** The record of each call says what it was answered. */
  ghost predicate Honest(calls: seq<Call>) {
    forall n: nat :: n < |calls| ==> HonestAt(calls, n)
  }

  ghost predicate HonestAt(calls: seq<Call>, n: nat) {
    forall m: nat :: m == n ==> AnsweredSo(calls, m)
  }

  ghost predicate AnsweredSo(calls: seq<Call>, n: nat) {
    n < |calls| && (calls[n].passed <==> Answer(calls, n).Pass?)
  }

  /** The times at which the identity was let through in the first `n` calls. */
  function Accepted(calls: seq<Call>, n: nat, id: Identity): seq<nat>
    requires n <= |calls|
  {
    if n == 0 then []
    else
      Accepted(calls, n - 1, id) +
      if calls[n - 1].id == id && calls[n - 1].passed then [calls[n - 1].now] else []
  }

  /** The identity's own calls read a clock that does not run back. */
  ghost predicate OwnOrder(calls: seq<Call>, id: Identity) {
    forall i, j :: 0 <= i <= j < |calls| && calls[i].id == id && calls[j].id == id ==> calls[i].now <= calls[j].now
  }

  function Entries(bursts: Bursts, id: Identity): seq<nat> {
    if id in bursts then bursts[id] else []
  }

  // What one call does.

  ghost predicate Sorted(s: seq<nat>) {
    forall i, j :: 0 <= i <= j < |s| ==> s[i] <= s[j]
  }

  /** Pruning drops exactly the entries that have left the window. */
  lemma {:induction false} PrunedExact(all: seq<nat>, start: nat, now: nat) returns (cut: nat)
    requires Sorted(all) && start <= |all|
    ensures start <= cut <= |all| && Pruned(all[start..], now) == all[cut..]
    ensures forall i :: start <= i < |all| ==> (i < cut <==> all[i] + BURST_WINDOW <= now)
    decreases |all| - start
  {
    if start < |all| && Elapsed(now, all[start]) >= BURST_WINDOW {
      assert all[start..][0] == all[start] && all[start..][1..] == all[start + 1..];
      cut := PrunedExact(all, start + 1, now);
    } else {
      cut := start;
      if start < |all| {
        assert all[start..][0] == all[start];
      }
    }
  }

  lemma {:induction false} PrunedTwice(entries: seq<nat>, now: nat)
    ensures Pruned(Pruned(entries, now), now) == Pruned(entries, now)
    decreases |entries|
  {
    if entries != [] && Elapsed(now, entries[0]) >= BURST_WINDOW {
      PrunedTwice(entries[1..], now);
    }
  }

  /** One call, seen through each identity's entries. */
  lemma {:induction false} BurstEffect(bursts: Bursts, counter: nat, caller: Identity, now: nat, id: Identity)
    ensures
      var (after, verdict) := CheckBurst(bursts, counter, caller, now);
      var pruned := Pruned(Entries(bursts, id), now);
      if id != caller
      then Entries(after, id) == if PruneDue(bursts, counter, caller) then pruned else Entries(bursts, id)
      else
        && Entries(after, id) == pruned + (if verdict.Pass? then [now] else [])
        && (verdict.RateLimited? <==> |pruned| >= BURST_LIMIT)
  {
    PrunedTwice(Entries(bursts, id), now);
  }

  lemma {:induction false} AcceptedSorted(calls: seq<Call>, n: nat, id: Identity)
    requires OwnOrder(calls, id) && n <= |calls|
    ensures Sorted(Accepted(calls, n, id))
    ensures forall m :: n <= m < |calls| && calls[m].id == id ==>
      forall i :: 0 <= i < |Accepted(calls, n, id)| ==> Accepted(calls, n, id)[i] <= calls[m].now
  {
    if n > 0 {
      AcceptedSorted(calls, n - 1, id);
    }
  }

  lemma {:induction false} AcceptedGrows(calls: seq<Call>, m: nat, n: nat, id: Identity)
    requires m <= n <= |calls|
    ensures |Accepted(calls, m, id)| <= |Accepted(calls, n, id)|
    ensures forall i :: 0 <= i < |Accepted(calls, m, id)| ==> Accepted(calls, n, id)[i] == Accepted(calls, m, id)[i]
  {
    if m < n {
      AcceptedGrows(calls, m, n - 1, id);
    }
  }

  // What the table remembers.

  /** Call `m` drops the identity's entry `i`: it prunes it, with a clock past the entry's window. */
  ghost predicate DroppedBy(calls: seq<Call>, id: Identity, i: nat, m: nat) {
    && m < |calls| && i < |Accepted(calls, m, id)| && Prunes(calls, id, m)
    && Accepted(calls, m, id)[i] + 30_000 <= calls[m].now
  }

  ghost predicate Dropped(calls: seq<Call>, n: nat, id: Identity, i: nat) {
    exists m: nat :: m < n && DroppedBy(calls, id, i, m)
  }

  /** The entries are the accepted calls that no call has dropped. */
  ghost predicate Remembers(calls: seq<Call>, n: nat, id: Identity)
    requires n <= |calls|
  {
    var all, kept := Accepted(calls, n, id), Entries(Table(calls, n), id);
    && |kept| <= |all| && kept == all[|all| - |kept|..]
    && forall i: nat :: i < |all| ==> (Dropped(calls, n, id, i) <==> i < |all| - |kept|)
  }

  /** Call `m` drops what it finds of the identity's entries past their window. */
  predicate Prunes(calls: seq<Call>, id: Identity, m: nat)
    requires m < |calls|
  {
    calls[m].id == id || PruneDue(Table(calls, m), calls[m].counter, calls[m].id)
  }

  lemma {:induction false} DroppedNext(calls: seq<Call>, n: nat, id: Identity, i: nat)
    requires 0 < n <= |calls|
    ensures Dropped(calls, n, id, i) <==> Dropped(calls, n - 1, id, i) || DroppedBy(calls, id, i, n - 1)
  {
    if Dropped(calls, n - 1, id, i) {
      var m: nat :| m < n - 1 && DroppedBy(calls, id, i, m);
      assert m < n;
    }
  }

  lemma {:induction false} NotYetDropped(calls: seq<Call>, n: nat, id: Identity, i: nat)
    requires n <= |calls| && n > 0 && i >= |Accepted(calls, n - 1, id)|
    ensures !Dropped(calls, n, id, i)
  {
    forall m: nat | m < n
      ensures !DroppedBy(calls, id, i, m)
    {
      AcceptedGrows(calls, m, n - 1, id);
    }
  }

  /** A call that does not touch the identity's entries. */
  lemma {:induction false} RemembersIdle(calls: seq<Call>, n: nat, id: Identity)
    requires 0 < n <= |calls| && Remembers(calls, n - 1, id) && !Prunes(calls, id, n - 1)
    ensures Remembers(calls, n, id)
  {
    var last := calls[n - 1];
    BurstEffect(Table(calls, n - 1), last.counter, last.id, last.now, id);
    assert Accepted(calls, n, id) == Accepted(calls, n - 1, id);
    forall i: nat | i < |Accepted(calls, n, id)|
      ensures Dropped(calls, n, id, i) <==> Dropped(calls, n - 1, id, i)
    {
      DroppedNext(calls, n, id, i);
    }
  }

  lemma {:induction false} DroppedBelow(calls: seq<Call>, n: nat, id: Identity, i: nat, start: nat, cut: nat)
    requires 0 < n <= |calls| && Prunes(calls, id, n - 1) && i < |Accepted(calls, n - 1, id)| && start <= cut
    requires Dropped(calls, n - 1, id, i) <==> i < start
    requires start <= i ==> (i < cut <==> Accepted(calls, n - 1, id)[i] + BURST_WINDOW <= calls[n - 1].now)
    ensures Dropped(calls, n, id, i) <==> i < cut
  {
    DroppedNext(calls, n, id, i);
  }

  /** A call that prunes them, before it adds its own. */
  lemma {:induction false} PruneRemembers(calls: seq<Call>, n: nat, id: Identity) returns (cut: nat)
    requires OwnOrder(calls, id) && 0 < n <= |calls| && Remembers(calls, n - 1, id) && Prunes(calls, id, n - 1)
    ensures cut <= |Accepted(calls, n - 1, id)|
    ensures Pruned(Entries(Table(calls, n - 1), id), calls[n - 1].now) == Accepted(calls, n - 1, id)[cut..]
    ensures forall i: nat :: i < |Accepted(calls, n - 1, id)| ==> (Dropped(calls, n, id, i) <==> i < cut)
  {
    AcceptedSorted(calls, n - 1, id);
    var all, kept := Accepted(calls, n - 1, id), Entries(Table(calls, n - 1), id);
    var start := |all| - |kept|;
    cut := PrunedExact(all, start, calls[n - 1].now);
    forall i: nat | i < |all|
      ensures Dropped(calls, n, id, i) <==> i < cut
    {
      DroppedBelow(calls, n, id, i, start, cut);
    }
  }

  lemma {:induction false} RemembersPruned(calls: seq<Call>, n: nat, id: Identity)
    requires Honest(calls)
    requires OwnOrder(calls, id) && 0 < n <= |calls| && Remembers(calls, n - 1, id) && Prunes(calls, id, n - 1)
    ensures Remembers(calls, n, id)
  {
    var last := calls[n - 1];
    assert HonestAt(calls, n - 1) && AnsweredSo(calls, n - 1);
    BurstEffect(Table(calls, n - 1), last.counter, last.id, last.now, id);
    var cut := PruneRemembers(calls, n, id);
    var all, next := Accepted(calls, n - 1, id), Accepted(calls, n, id);
    assert Entries(Table(calls, n), id) == next[cut..];
    forall i: nat | i < |next|
      ensures Dropped(calls, n, id, i) <==> i < cut
    {
      if i >= |all| {
        NotYetDropped(calls, n, id, i);
      }
    }
  }

  /** The table holds exactly the accepted calls that no own or pruning call with a later clock has dropped. */
  lemma {:induction false} TableRemembers(calls: seq<Call>, n: nat, id: Identity)
    requires Honest(calls)
    requires OwnOrder(calls, id) && n <= |calls|
    ensures Remembers(calls, n, id)
  {
    if n > 0 {
      TableRemembers(calls, n - 1, id);
      if Prunes(calls, id, n - 1) {
        RemembersPruned(calls, n, id);
      } else {
        RemembersIdle(calls, n, id);
      }
    }
  }

  lemma {:induction false} BurstSize(bursts: Bursts, counter: nat, id: Identity, now: nat)
    requires |bursts| <= MAX_BURST_IDENTITIES
    ensures |CheckBurst(bursts, counter, id, now).0| <= MAX_BURST_IDENTITIES
  {
    SubsetSize(PruneAll(bursts, now).Keys, bursts.Keys);
    assert |PruneAll(bursts, now)| <= |bursts|;
  }

  /** The identity table never outgrows its cap. */
  lemma {:induction false} TableBound(calls: seq<Call>, n: nat)
    requires n <= |calls|
    ensures |Table(calls, n)| <= 100_000
  {
    if n > 0 {
      TableBound(calls, n - 1);
      BurstSize(Table(calls, n - 1), calls[n - 1].counter, calls[n - 1].id, calls[n - 1].now);
    }
  }
}
