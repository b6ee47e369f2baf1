/** Token buckets with real-valued credit; times are in milliseconds. */
module TokenBuckets {
  import opened Basics

  datatype Bucket = Bucket(rate: nat, capacity: nat, available: real, updated: nat)

  function NewBucket(rate: nat, capacity: nat, now: nat): Bucket {
    Bucket(Max(rate, 1), Max(capacity, 1), Max(capacity, 1) as real, now)
  }

  /** What flows in during `ms` milliseconds. */
  function Inflow(rate: nat, ms: nat): real {
    ms as real / 1000.0 * rate as real
  }

  function MinReal(a: real, b: real): real {
    if a < b then a else b
  }

  /** The credit the bucket would show at `now`. */
  function Credit(b: Bucket, now: nat): real {
    MinReal(b.available + Inflow(b.rate, Elapsed(now, b.updated)), b.capacity as real)
  }

  function Allow(b: Bucket, amount: nat, now: nat): (Bucket, bool) {
    var filled := b.(available := Credit(b, now), updated := now);
    if filled.available < amount as real then (filled, false)
    else (filled.(available := filled.available - amount as real), true)
  }

  ghost predicate Sound(b: Bucket) {
    b.rate > 0 && b.capacity > 0 && 0.0 <= b.available <= b.capacity as real
  }

  /** The fixed limits of one sending role: 145 % of the granted rate, in bytes per second. */
  function WireRate(kbps: nat): nat {
    ((kbps * 145 + 99) / 100 * 1000 + 7) / 8
  }

  function WireBurst(kbps: nat): nat {
    Max(256 * 1024, WireRate(kbps) * 50 / 1000)
  }

  function RoleBucket(kbps: nat, now: nat): Bucket {
    NewBucket(WireRate(kbps), WireBurst(kbps), now)
  }

  lemma {:induction false} InflowAdds(rate: nat, a: nat, b: nat)
    ensures Inflow(rate, a + b) == Inflow(rate, a) + Inflow(rate, b)
  {
    var x, y, r := a as real / 1000.0, b as real / 1000.0, rate as real;
    assert (a + b) as real / 1000.0 == x + y;
    assert (x + y) * r == x * r + y * r;
  }

  lemma {:induction false} InflowPositive(rate: nat, a: nat)
    ensures Inflow(rate, a) >= 0.0
  {
    var x, r := a as real / 1000.0, rate as real;
    assert x * r >= 0.0;
  }

  lemma {:induction false} NewBucketSound(rate: nat, capacity: nat, now: nat)
    ensures Sound(NewBucket(rate, capacity, now))
    ensures Credit(NewBucket(rate, capacity, now), now) == Max(capacity, 1) as real
  {
    assert Inflow(Max(rate, 1), 0) == 0.0;
  }

  /** Credit at a later time exceeds credit now by no more than what flowed in. */
  lemma {:induction false} CreditGrows(b: Bucket, now: nat, later: nat)
    requires Sound(b) && b.updated <= now <= later
    ensures Credit(b, later) <= Credit(b, now) + Inflow(b.rate, later - now)
  {
    InflowAdds(b.rate, now - b.updated, later - now);
    InflowPositive(b.rate, later - now);
    assert later - b.updated == (now - b.updated) + (later - now);
  }

  /** What a call admits is paid for, from credit and inflow together. */
  lemma {:induction false} AllowPays(b: Bucket, amount: nat, now: nat, later: nat)
    requires Sound(b) && b.updated <= now <= later
    ensures var (b', ok) := Allow(b, amount, later);
      && Sound(b') && b'.rate == b.rate && b'.capacity == b.capacity && b'.updated == later
      && Credit(b', later) + (if ok then amount as real else 0.0) <= Credit(b, now) + Inflow(b.rate, later - now)
  {
    CreditGrows(b, now, later);
    InflowPositive(b.rate, later - b.updated);
    assert Inflow(b.rate, 0) == 0.0;
  }

  // Exactly what is admitted.

  /** Credit refills at the rate, up to the capacity, however often it is looked at. */
  lemma {:induction false} CreditRefills(b: Bucket, now: nat, later: nat)
    requires Sound(b) && b.updated <= now <= later
    ensures Credit(b, later) == MinReal(Credit(b, now) + Inflow(b.rate, later - now), b.capacity as real)
  {
    InflowAdds(b.rate, now - b.updated, later - now);
    InflowPositive(b.rate, later - now);
    assert later - b.updated == (now - b.updated) + (later - now);
  }

  /** A call is admitted exactly when the credit covers it, and takes just what it admits. */
  lemma {:induction false} AllowTakes(b: Bucket, amount: nat, now: nat)
    requires Sound(b) && b.updated <= now
    ensures var (b', ok) := Allow(b, amount, now);
      && (ok <==> amount as real <= Credit(b, now)) && Sound(b') && b'.updated == now
      && b'.rate == b.rate && b'.capacity == b.capacity
      && Credit(b', now) == Credit(b, now) - if ok then amount as real else 0.0
  {
    AllowPays(b, amount, b.updated, now);
    assert Inflow(b.rate, 0) == 0.0;
  }

  datatype Ask = Ask(amount: nat, now: nat)

  /** The bucket after the asks, one call each. */
  function After(b: Bucket, asks: seq<Ask>): Bucket
    decreases |asks|
  {
    if asks == [] then b
    else Allow(After(b, asks[..|asks| - 1]), asks[|asks| - 1].amount, asks[|asks| - 1].now).0
  }

  /** What was admitted from ask number `i` on. */
  function Admitted(b: Bucket, asks: seq<Ask>, i: nat): nat
    decreases |asks|
  {
    if i >= |asks| then 0
    else
      var before, last := asks[..|asks| - 1], asks[|asks| - 1];
      Admitted(b, before, i) + if Allow(After(b, before), last.amount, last.now).1 then last.amount else 0
  }

  /** When ask number `i` was made; the one after them all is made now. */
  function AskedAt(asks: seq<Ask>, now: nat, i: nat): nat {
    if i < |asks| then asks[i].now else now
  }

  ghost predicate InOrder(start: nat, asks: seq<Ask>, now: nat) {
    && (forall i :: 0 <= i < |asks| ==> start <= asks[i].now <= now) && start <= now
    && forall i, j :: 0 <= i < j < |asks| ==> asks[i].now <= asks[j].now
  }

  lemma {:induction false} AfterSound(b: Bucket, asks: seq<Ask>, now: nat)
    requires Sound(b) && InOrder(b.updated, asks, now)
    ensures var after := After(b, asks);
      Sound(after) && after.rate == b.rate && after.capacity == b.capacity && after.updated <= now
    decreases |asks|
  {
    if asks != [] {
      var before, last := asks[..|asks| - 1], asks[|asks| - 1];
      AfterSound(b, before, last.now);
      AllowTakes(After(b, before), last.amount, last.now);
    }
  }

  /** The credit after the last ask, at its time and at a later one. */
  lemma {:induction false} CreditAfter(b: Bucket, asks: seq<Ask>, now: nat)
    requires Sound(b) && InOrder(b.updated, asks, now) && asks != []
    ensures var before, last := asks[..|asks| - 1], asks[|asks| - 1];
      var admitted := if Allow(After(b, before), last.amount, last.now).1 then last.amount else 0;
      && InOrder(b.updated, before, last.now) && last.now <= now
      && Credit(After(b, asks), now) ==
         MinReal(Credit(After(b, before), last.now) - admitted as real + Inflow(b.rate, now - last.now),
                 b.capacity as real)
  {
    var before, last := asks[..|asks| - 1], asks[|asks| - 1];
    AfterSound(b, before, last.now);
    AllowTakes(After(b, before), last.amount, last.now);
    CreditRefills(After(b, asks), last.now, now);
  }

  /** From each ask on, what was admitted and what is left come to at most the capacity and the inflow. */
  lemma {:induction false} CreditAtMost(b: Bucket, asks: seq<Ask>, now: nat, i: nat)
    requires Sound(b) && InOrder(b.updated, asks, now) && i <= |asks|
    ensures AskedAt(asks, now, i) <= now
    ensures Credit(After(b, asks), now) + Admitted(b, asks, i) as real
            <= b.capacity as real + Inflow(b.rate, now - AskedAt(asks, now, i))
    decreases |asks|
  {
    AfterSound(b, asks, now);
    if i == |asks| {
      assert Inflow(b.rate, 0) == 0.0;
    } else {
      var before, last := asks[..|asks| - 1], asks[|asks| - 1];
      CreditAfter(b, asks, now);
      CreditAtMost(b, before, last.now, i);
      InflowAdds(b.rate, last.now - asks[i].now, now - last.now);
    }
  }

  /** And from some ask on exactly to that, if the bucket began full. */
  lemma {:induction false} CreditTight(b: Bucket, asks: seq<Ask>, now: nat) returns (i: nat)
    requires Sound(b) && InOrder(b.updated, asks, now) && b.available == b.capacity as real
    ensures i <= |asks| && AskedAt(asks, now, i) <= now
    ensures Credit(After(b, asks), now) + Admitted(b, asks, i) as real
            == b.capacity as real + Inflow(b.rate, now - AskedAt(asks, now, i))
    decreases |asks|
  {
    i := |asks|;
    assert Inflow(b.rate, 0) == 0.0;
    if asks == [] {
      InflowPositive(b.rate, now - b.updated);
    } else {
      var before, last := asks[..|asks| - 1], asks[|asks| - 1];
      CreditAfter(b, asks, now);
      if Credit(After(b, asks), now) != b.capacity as real {
        i := CreditTight(b, before, last.now);
        InflowAdds(b.rate, last.now - AskedAt(before, last.now, i), now - last.now);
      }
    }
  }

  /**
   Exactly what a bucket that began full admits, after any asks: an ask with which, from every earlier
   ask on, the admitted amounts come to no more than the capacity and what has flowed in since.
   */
  lemma {:induction false} AdmitsExactly(rate: nat, capacity: nat, start: nat, asks: seq<Ask>, next: Ask)
    requires InOrder(start, asks, next.now)
    ensures var b := NewBucket(rate, capacity, start);
      var r, k := if rate == 0 then 1 else rate, if capacity == 0 then 1 else capacity;
      Allow(After(b, asks), next.amount, next.now).1 <==>
      forall i: nat :: i <= |asks| ==>
        AskedAt(asks, next.now, i) <= next.now &&
        (Admitted(b, asks, i) + next.amount) as real
          <= k as real + Inflow(r, next.now - AskedAt(asks, next.now, i))
  {
    var b := NewBucket(rate, capacity, start);
    AfterSound(b, asks, next.now);
    AllowTakes(After(b, asks), next.amount, next.now);
    forall i: nat | i <= |asks|
      ensures AskedAt(asks, next.now, i) <= next.now
      ensures Credit(After(b, asks), next.now) + Admitted(b, asks, i) as real
              <= b.capacity as real + Inflow(b.rate, next.now - AskedAt(asks, next.now, i))
    {
      CreditAtMost(b, asks, next.now, i);
    }
    var tight := CreditTight(b, asks, next.now);
  }

  /**
   The limits of a sending role: the rate is 145 % of the granted one in whole kbit/s, in whole bytes a
   second, rounded up both times; the burst is 50 ms of it, and at least 256 KiB.
   */
  lemma {:induction false} WireLimits(kbps: nat, wide: nat)
    requires 145 * kbps <= 100 * wide < 145 * kbps + 100
    ensures 1000 * wide <= 8 * WireRate(kbps) < 1000 * wide + 8
    ensures var bytes := WireRate(kbps) / 20; WireBurst(kbps) == if bytes < 262_144 then 262_144 else bytes
  {
    assert wide == (kbps * 145 + 99) / 100;
    assert WireRate(kbps) * 50 / 1000 == WireRate(kbps) / 20;
  }
}
