/** What the burst limiter decides on, and when that is exactly the window. */
module ActivationBurstVerdicts {
  import opened Basics
  import opened ActivationTables
  import opened ActivationTraces
  import opened ActivationBurst

  // What a call decides on.

  predicate InWindow(time: nat, now: nat) {
    now < time + 30_000
  }

  /** The times still in the window ending at `now`. */
  function Recent(times: seq<nat>, now: nat): seq<nat> {
    if times == [] then []
    else
      Recent(times[..|times| - 1], now) +
      if InWindow(times[|times| - 1], now) then [times[|times| - 1]] else []
  }

  lemma {:induction false} RecentSuffix(times: seq<nat>, now: nat, start: nat)
    requires Sorted(times) && start <= |times|
    requires forall i :: 0 <= i < |times| ==> (start <= i <==> InWindow(times[i], now))
    ensures Recent(times, now) == times[start..]
    decreases |times|
  {
    if times != [] {
      var front := times[..|times| - 1];
      if start < |times| {
        RecentSuffix(front, now, start);
        assert times[start..] == front[start..] + [times[|times| - 1]];
      } else {
        RecentSuffix(front, now, start - 1);
      }
    }
  }

  /** What call `n` finds of its own identity's entries. */
  function Kept(calls: seq<Call>, n: nat): seq<nat>
    requires n < |calls|
  {
    Pruned(Entries(Table(calls, n), calls[n].id), calls[n].now)
  }

  /**
   Call `m` of another identity, with a clock already past the window of the caller's entry `i`,
   pruned the table before call `n`, whose clock is still inside it.
   */
  ghost predicate OvertakenBy(calls: seq<Call>, n: nat, i: nat, m: nat)
    requires n < |calls|
  {
    && m < n && calls[m].id != calls[n].id && DroppedBy(calls, calls[n].id, i, m)
    && InWindow(Accepted(calls, m, calls[n].id)[i], calls[n].now)
  }

  ghost predicate Overtaken(calls: seq<Call>, n: nat, i: nat)
    requires n < |calls|
  {
    exists m: nat :: OvertakenBy(calls, n, i, m)
  }

  ghost predicate EarlyPruned(calls: seq<Call>, n: nat)
    requires n < |calls|
  {
    exists i: nat :: Overtaken(calls, n, i)
  }

  /** The caller's entry `i` has been dropped once call `n` has pruned. */
  ghost predicate Missing(calls: seq<Call>, n: nat, i: nat)
    requires n < |calls|
  {
    Dropped(calls, n + 1, calls[n].id, i)
  }

  /** Within the window, an entry is dropped before the call only by an early prune. */
  lemma {:induction false} MissingInWindow(calls: seq<Call>, n: nat, i: nat)
    requires n < |calls| && OwnOrder(calls, calls[n].id) && i < |Accepted(calls, n, calls[n].id)|
    requires InWindow(Accepted(calls, n, calls[n].id)[i], calls[n].now)
    ensures Missing(calls, n, i) <==> Overtaken(calls, n, i)
  {
    var id := calls[n].id;
    if Missing(calls, n, i) {
      var m: nat :| m < n + 1 && DroppedBy(calls, id, i, m);
      AcceptedGrows(calls, m, n, id);
      assert OvertakenBy(calls, n, i, m);
    }
    if Overtaken(calls, n, i) {
      var m: nat :| OvertakenBy(calls, n, i, m);
      assert m < n + 1 && DroppedBy(calls, id, i, m);
    }
  }

  lemma {:induction false} MissingOutside(calls: seq<Call>, n: nat, i: nat)
    requires n < |calls| && i < |Accepted(calls, n, calls[n].id)|
    requires !InWindow(Accepted(calls, n, calls[n].id)[i], calls[n].now)
    ensures Missing(calls, n, i)
  {
    assert DroppedBy(calls, calls[n].id, i, n);
  }

  lemma {:induction false} KeptFrom(calls: seq<Call>, n: nat) returns (cut: nat)
    requires Honest(calls)
    requires n < |calls| && OwnOrder(calls, calls[n].id)
    ensures cut <= |Accepted(calls, n, calls[n].id)| && Kept(calls, n) == Accepted(calls, n, calls[n].id)[cut..]
    ensures forall i: nat :: i < |Accepted(calls, n, calls[n].id)| ==> (Missing(calls, n, i) <==> i < cut)
  {
    TableRemembers(calls, n, calls[n].id);
    cut := PruneRemembers(calls, n + 1, calls[n].id);
  }

  lemma {:induction false} RecentFrom(times: seq<nat>, now: nat) returns (start: nat)
    requires Sorted(times)
    ensures start <= |times| && Recent(times, now) == times[start..]
    ensures forall i: nat :: i < |times| ==> (start <= i <==> InWindow(times[i], now))
  {
    start := PrunedExact(times, 0, now);
    RecentSuffix(times, now, start);
  }

  /**
   The caller finds the accepted calls still in its window, the oldest of them missing exactly
   as far as early prunes reach.
   */
  lemma {:induction false} KeptExactly(calls: seq<Call>, n: nat) returns (start: nat, cut: nat)
    requires Honest(calls)
    requires n < |calls| && OwnOrder(calls, calls[n].id)
    ensures var all := Accepted(calls, n, calls[n].id);
      && start <= cut <= |all| && Recent(all, calls[n].now) == all[start..] && Kept(calls, n) == all[cut..]
      && (forall i: nat :: i < |all| ==> (start <= i <==> InWindow(all[i], calls[n].now)))
      && (forall i: nat :: start <= i < |all| ==> (Overtaken(calls, n, i) <==> i < cut))
  {
    var all := Accepted(calls, n, calls[n].id);
    AcceptedSorted(calls, n, calls[n].id);
    cut := KeptFrom(calls, n);
    start := RecentFrom(all, calls[n].now);
    forall i: nat | start <= i < |all|
      ensures Overtaken(calls, n, i) <==> i < cut
    {
      MissingInWindow(calls, n, i);
    }
    if 0 < start {
      MissingOutside(calls, n, start - 1);
    }
  }

  /** The limiter decides on exactly the accepted calls in the window if and only if no early prune came before. */
  lemma {:induction false} WindowSeenIff(calls: seq<Call>, n: nat)
    requires Honest(calls)
    requires n < |calls| && OwnOrder(calls, calls[n].id)
    ensures Kept(calls, n) == Recent(Accepted(calls, n, calls[n].id), calls[n].now) <==> !EarlyPruned(calls, n)
    ensures |Kept(calls, n)| <= |Recent(Accepted(calls, n, calls[n].id), calls[n].now)|
  {
    var all := Accepted(calls, n, calls[n].id);
    var start, cut := KeptExactly(calls, n);
    assert |all[start..]| == |all| - start && |all[cut..]| == |all| - cut;
    if EarlyPruned(calls, n) {
      var i: nat :| Overtaken(calls, n, i);
      OvertakenInWindow(calls, n, i);
    }
    if start < cut {
      assert Overtaken(calls, n, start);
    }
  }

  lemma {:induction false} OvertakenInWindow(calls: seq<Call>, n: nat, i: nat)
    requires n < |calls| && Overtaken(calls, n, i)
    ensures i < |Accepted(calls, n, calls[n].id)| && InWindow(Accepted(calls, n, calls[n].id)[i], calls[n].now)
  {
    var m: nat :| OvertakenBy(calls, n, i, m);
    AcceptedGrows(calls, m, n, calls[n].id);
  }

  // The verdicts.

  /** A refusal for rate always means twelve accepted calls within the window. */
  lemma {:induction false} LimitedOnlyWhenFull(calls: seq<Call>, n: nat)
    requires Honest(calls)
    requires n < |calls| && OwnOrder(calls, calls[n].id) && Answer(calls, n).RateLimited?
    ensures |Recent(Accepted(calls, n, calls[n].id), calls[n].now)| >= 12
  {
    WindowSeenIff(calls, n);
    BurstEffect(Table(calls, n), calls[n].counter, calls[n].id, calls[n].now, calls[n].id);
  }

  /** And twelve accepted calls within the window mean a refusal, unless an early prune came before. */
  lemma {:induction false} FullIsLimited(calls: seq<Call>, n: nat)
    requires Honest(calls)
    requires n < |calls| && OwnOrder(calls, calls[n].id) && !EarlyPruned(calls, n)
    ensures Answer(calls, n).RateLimited? <==>
            |Recent(Accepted(calls, n, calls[n].id), calls[n].now)| >= 12
  {
    WindowSeenIff(calls, n);
    BurstEffect(Table(calls, n), calls[n].counter, calls[n].id, calls[n].now, calls[n].id);
  }

  /** Call `c` of the identity was the one accepted as number `i`. */
  ghost predicate AcceptedAs(calls: seq<Call>, c: nat, id: Identity, i: nat) {
    c < |calls| && calls[c].id == id && calls[c].passed && |Accepted(calls, c, id)| == i
  }

  lemma {:induction false} TwelveBefore(calls: seq<Call>, c: nat, i: nat)
    requires Honest(calls)
    requires c < |calls| && OwnOrder(calls, calls[c].id)
    requires var all := Accepted(calls, c, calls[c].id); i + BURST_LIMIT == |all| && InWindow(all[i], calls[c].now)
    ensures calls[c].passed ==> EarlyPruned(calls, c)
  {
    var all := Accepted(calls, c, calls[c].id);
    var start, cut := KeptExactly(calls, c);
    assert |all[start..]| >= BURST_LIMIT;
    assert HonestAt(calls, c) && AnsweredSo(calls, c);
    if !EarlyPruned(calls, c) {
      FullIsLimited(calls, c);
    }
  }

  ghost predicate SlippedThrough(calls: seq<Call>, id: Identity, i: nat) {
    exists c: nat :: AcceptedAs(calls, c, id, i) && EarlyPruned(calls, c)
  }

  /** Any thirteen accepted calls span a window, or the last was overtaken. */
  ghost predicate Spaced(calls: seq<Call>, n: nat, id: Identity, i: nat)
    requires n <= |calls| && i + 12 < |Accepted(calls, n, id)|
  {
    || Accepted(calls, n, id)[i] + 30_000 <= Accepted(calls, n, id)[i + 12]
    || SlippedThrough(calls, id, i + 12)
  }

  lemma {:induction false} LastAccepted(calls: seq<Call>, n: nat, id: Identity)
    requires 0 < n <= |calls| && |Accepted(calls, n, id)| > |Accepted(calls, n - 1, id)|
    ensures calls[n - 1].id == id && calls[n - 1].passed
    ensures Accepted(calls, n, id) == Accepted(calls, n - 1, id) + [calls[n - 1].now]
  {
  }

  lemma {:induction false} SpacedNow(calls: seq<Call>, n: nat, id: Identity, i: nat)
    requires Honest(calls)
    requires 0 < n <= |calls| && OwnOrder(calls, id) && i + BURST_LIMIT < |Accepted(calls, n, id)|
    requires i + BURST_LIMIT >= |Accepted(calls, n - 1, id)|
    ensures Spaced(calls, n, id, i)
  {
    LastAccepted(calls, n, id);
    if InWindow(Accepted(calls, n - 1, id)[i], calls[n - 1].now) {
      TwelveBefore(calls, n - 1, i);
      assert AcceptedAs(calls, n - 1, id, i + BURST_LIMIT);
    }
  }

  /**
   Any thirteen accepted calls of an identity span 30 seconds or more, unless the last of them
   was overtaken by an early prune.
   */
  lemma {:induction false} WindowBound(calls: seq<Call>, n: nat, id: Identity, i: nat)
    requires Honest(calls)
    requires n <= |calls| && OwnOrder(calls, id) && i + BURST_LIMIT < |Accepted(calls, n, id)|
    ensures Spaced(calls, n, id, i)
  {
    if i + BURST_LIMIT < |Accepted(calls, n - 1, id)| {
      WindowBound(calls, n - 1, id, i);
      AcceptedGrows(calls, n - 1, n, id);
    } else {
      SpacedNow(calls, n, id, i);
    }
  }

  /** When all clocks come in order there is no early prune. */
  lemma {:induction false} OrderedNeverEarly(calls: seq<Call>, n: nat)
    requires n < |calls| && forall m :: 0 <= m < n ==> calls[m].now <= calls[n].now
    ensures !EarlyPruned(calls, n)
  {
  }
}
