/** Session and bandwidth accounting of the relay: a guard per session, updated by its own task. */
module RelayLoad {
  import opened Basics

  const USIZE_MAX := 0xFFFF_FFFF_FFFF_FFFF

  /** A guard counts from admission; dropping it first returns its bandwidth, then its session. */
  datatype Guard = Live(bandwidth: nat) | Closing | Gone

  datatype Load = Load(guards: seq<Guard>, active: nat, total: nat)

  datatype Event =
    | Admit(draining: bool, capacity: nat)
    | Update(id: nat, sample: nat)
    | Release(id: nat)
    | Finish(id: nat)

  function Saturate(n: nat): nat {
    Min(n, USIZE_MAX)
  }

  /** A quarter of the sample, three quarters of the past; a zero past counts as none. */
  function Average(past: nat, sample: nat): nat {
    if past == 0 then sample else Saturate(Saturate(past * 3) + sample) / 4
  }

  /** The first sample counts whole; later ones a quarter, rounded down, up to what the counter's width allows. */
  lemma {:induction false} AverageExactly(past: nat, sample: nat)
    ensures past == 0 ==> Average(past, sample) == sample
    ensures past > 0 && 3 * past + sample <= USIZE_MAX ==>
      4 * Average(past, sample) <= 3 * past + sample < 4 * Average(past, sample) + 4
    ensures past > 0 && 3 * past + sample > USIZE_MAX ==> Average(past, sample) == 0x3FFF_FFFF_FFFF_FFFF
  {
  }

  /** The shared total moves by wrapping addition and clamped subtraction. */
  function Moved(total: nat, before: nat, after: nat): nat {
    if after >= before then (total + (after - before)) % (USIZE_MAX + 1) else Elapsed(total, before - after)
  }

  /** A change that the total can take is the sum's; one that would take more than there is leaves zero. */
  lemma {:induction false} MovedExactly(total: nat, before: nat, after: nat)
    ensures total + after < before ==> Moved(total, before, after) == 0
    ensures before <= total + after <= before + USIZE_MAX ==> Moved(total, before, after) == total + after - before
  {
  }

  function Step(s: Load, e: Event): Load {
    match e
    case Admit(draining, capacity) =>
      if draining || s.active >= Max(capacity, 1) then s
      else s.(guards := s.guards + [Live(0)], active := s.active + 1)
    case Update(id, sample) =>
      if id >= |s.guards| || !s.guards[id].Live? then s
      else
        var past := s.guards[id].bandwidth;
        var next := Average(past, sample);
        s.(guards := s.guards[id := Live(next)], total := Moved(s.total, past, next))
    case Release(id) =>
      if id >= |s.guards| || !s.guards[id].Live? then s
      else s.(guards := s.guards[id := Closing], total := Elapsed(s.total, s.guards[id].bandwidth))
    case Finish(id) =>
      if id >= |s.guards| || !s.guards[id].Closing? then s
      else s.(guards := s.guards[id := Gone], active := Elapsed(s.active, 1))
  }

  // What the counters stand for.

  function Weight(g: Guard): nat {
    if g.Live? then g.bandwidth else 0
  }

  function Open(g: Guard): nat {
    if g.Gone? then 0 else 1
  }

  function Bandwidth(guards: seq<Guard>): nat {
    if guards == [] then 0 else Bandwidth(guards[..|guards| - 1]) + Weight(guards[|guards| - 1])
  }

  function Sessions(guards: seq<Guard>): nat {
    if guards == [] then 0 else Sessions(guards[..|guards| - 1]) + Open(guards[|guards| - 1])
  }

  lemma {:induction false} Replaced(guards: seq<Guard>, id: nat, g: Guard)
    requires id < |guards|
    ensures Bandwidth(guards[id := g]) == Bandwidth(guards) - Weight(guards[id]) + Weight(g)
    ensures Sessions(guards[id := g]) == Sessions(guards) - Open(guards[id]) + Open(g)
    ensures Weight(guards[id]) <= Bandwidth(guards) && Open(guards[id]) <= Sessions(guards)
  {
    var n := |guards| - 1;
    if id < n {
      Replaced(guards[..n], id, g);
      assert guards[id := g][..n] == guards[..n][id := g];
    } else {
      assert guards[id := g][..n] == guards[..n];
    }
  }

  ghost predicate Exact(s: Load) {
    s.active == Sessions(s.guards) && s.total == Bandwidth(s.guards) <= USIZE_MAX
  }

  /** No counter is ever asked to give back more than it holds. */
  predicate NoClamp(s: Load, e: Event) {
    match e
    case Admit(_, _) => true
    case Update(id, sample) =>
      id < |s.guards| && s.guards[id].Live? ==>
          s.guards[id].bandwidth <= s.total + Average(s.guards[id].bandwidth, sample)
    case Release(id) => id < |s.guards| && s.guards[id].Live? ==> s.guards[id].bandwidth <= s.total
    case Finish(id) => id < |s.guards| && s.guards[id].Closing? ==> 1 <= s.active
  }

  /**
   From exact counters every step is free of clamping, keeps the session count exact, and keeps
   the total exact exactly when the averages' sum still fits the counter.
   */
  lemma {:induction false} StepExact(s: Load, e: Event)
    requires Exact(s)
    ensures NoClamp(s, e) && Step(s, e).active == Sessions(Step(s, e).guards)
    ensures Exact(Step(s, e)) <==> Bandwidth(Step(s, e).guards) <= USIZE_MAX
  {
    match e
    case Admit(_, _) =>
      assert (s.guards + [Live(0)])[..|s.guards|] == s.guards;
    case Update(id, sample) =>
      if id < |s.guards| && s.guards[id].Live? {
        Replaced(s.guards, id, Live(Average(s.guards[id].bandwidth, sample)));
      }
    case Release(id) =>
      if id < |s.guards| {
        Replaced(s.guards, id, Closing);
      }
    case Finish(id) =>
      if id < |s.guards| {
        Replaced(s.guards, id, Gone);
      }
  }

  // Whole runs.

  ghost predicate IsRun(states: seq<Load>, events: seq<Event>) {
    && |states| == |events| + 1 && states[0] == Load([], 0, 0)
    && forall i :: 0 <= i < |events| ==> SteppedAt(states, events, i)
  }

  ghost predicate SteppedAt(states: seq<Load>, events: seq<Event>, i: nat)
    requires |states| == |events| + 1 && i < |events|
  {
    states[i + 1] == Step(states[i], events[i])
  }

  /** In every interleaving whose averages fit the counter, both counters are exact and nothing clamps. */
  lemma {:induction false} CountersExact(states: seq<Load>, events: seq<Event>, n: nat)
    requires IsRun(states, events) && n <= |events|
    requires forall i :: 0 <= i < |states| ==> Bandwidth(states[i].guards) <= USIZE_MAX
    ensures Exact(states[n]) && (n < |events| ==> NoClamp(states[n], events[n]))
  {
    if n > 0 {
      CountersExact(states, events, n - 1);
      assert SteppedAt(states, events, n - 1);
      StepExact(states[n - 1], events[n - 1]);
    }
    if n < |events| {
      StepExact(states[n], events[n]);
    }
  }

  /** The open sessions never exceed the largest capacity any admission was made under. */
  lemma {:induction false} SessionsBounded(states: seq<Load>, events: seq<Event>, n: nat, cap: nat)
    requires IsRun(states, events) && n <= |events|
    requires forall i :: 0 <= i < |events| && events[i].Admit? ==> events[i].capacity <= cap
    ensures Sessions(states[n].guards) <= states[n].active <= Max(cap, 1)
  {
    if n > 0 {
      SessionsBounded(states, events, n - 1, cap);
      assert SteppedAt(states, events, n - 1);
      SessionStep(states[n - 1], events[n - 1]);
    }
  }

  lemma {:induction false} SessionStep(s: Load, e: Event)
    requires Sessions(s.guards) <= s.active
    ensures Sessions(Step(s, e).guards) <= Step(s, e).active
    ensures Step(s, e).active <= s.active || (e.Admit? && Step(s, e).active <= Max(e.capacity, 1))
  {
    match e
    case Admit(_, _) =>
      assert (s.guards + [Live(0)])[..|s.guards|] == s.guards;
    case Update(id, sample) =>
      if id < |s.guards| && s.guards[id].Live? {
        Replaced(s.guards, id, Live(Average(s.guards[id].bandwidth, sample)));
      }
    case Release(id) =>
      if id < |s.guards| {
        Replaced(s.guards, id, Closing);
      }
    case Finish(id) =>
      if id < |s.guards| {
        Replaced(s.guards, id, Gone);
      }
  }

  // The average.

  function Smoothed(samples: seq<nat>): nat {
    if samples == [] then 0 else Average(Smoothed(samples[..|samples| - 1]), samples[|samples| - 1])
  }

  lemma {:induction false} SmoothedZeros(samples: seq<nat>)
    requires forall j :: 0 <= j < |samples| ==> samples[j] == 0
    ensures Smoothed(samples) == 0
  {
    if samples != [] {
      SmoothedZeros(samples[..|samples| - 1]);
    }
  }

  /** After an initial run of `z` zeros the average lies between the least and the greatest sample. */
  lemma {:induction false} SmoothedWithin(samples: seq<nat>, z: nat, least: nat, greatest: nat)
    requires z < |samples| && (forall j :: 0 <= j < z ==> samples[j] == 0)
    requires forall j :: z <= j < |samples| ==> least <= samples[j] <= greatest
    requires 4 * greatest <= USIZE_MAX
    ensures least <= Smoothed(samples) <= greatest
  {
    var front := samples[..|samples| - 1];
    if z == |samples| - 1 {
      SmoothedZeros(front);
    } else {
      SmoothedWithin(front, z, least, greatest);
    }
  }

  /** The samples a guard has been given in the first `n` steps. */
  ghost function SamplesOf(states: seq<Load>, events: seq<Event>, id: nat, n: nat): seq<nat>
    requires IsRun(states, events) && n <= |events|
  {
    if n == 0 then []
    else
      var e := events[n - 1];
      SamplesOf(states, events, id, n - 1) +
      if e.Update? && e.id == id && id < |states[n - 1].guards| then [e.sample] else []
  }

  /** In every interleaving a live guard's average is that of its own samples alone. */
  lemma {:induction false} AverageIsOwn(states: seq<Load>, events: seq<Event>, id: nat, n: nat)
    requires IsRun(states, events) && n <= |events|
    ensures id >= |states[n].guards| ==> SamplesOf(states, events, id, n) == []
    ensures id < |states[n].guards| && states[n].guards[id].Live? ==>
              states[n].guards[id].bandwidth == Smoothed(SamplesOf(states, events, id, n))
  {
    if n > 0 {
      AverageIsOwn(states, events, id, n - 1);
      assert SteppedAt(states, events, n - 1);
      var e, before := events[n - 1], SamplesOf(states, events, id, n - 1);
      if e.Update? && e.id == id && id < |states[n - 1].guards| {
        assert (before + [e.sample])[..|before|] == before;
      } else {
        assert before + [] == before;
      }
    }
  }

  /** The relay's counters, changed in place. */
  class LoadCounters {
    var guards: seq<Guard>
    var active: nat
    var total: nat

    function View(): Load
      reads this
    {
      Load(guards, active, total)
    }

    constructor ()
      ensures View() == Load([], 0, 0) && Exact(View())
    {
      guards, active, total := [], 0, 0;
    }

    method TryNew(draining: bool, capacity: nat) returns (id: Option<nat>)
      requires Exact(View())
      modifies this
      ensures Exact(View()) && View() == Step(old(View()), Admit(draining, capacity))
      ensures id.Some? <==> !draining && old(active) < Max(capacity, 1)
      ensures id.Some? ==> id.value == |old(guards)| && guards == old(guards) + [Live(0)]
    {
      StepExact(View(), Admit(draining, capacity));
      if draining || active >= Max(capacity, 1) {
        return None;
      }
      active := active + 1;
      id := Some(|guards|);
      guards := guards + [Live(0)];
      assert guards[..|guards| - 1] == old(guards);
    }

    method UpdateGuard(id: nat, sample: nat)
      requires Exact(View()) && id < |guards| && guards[id].Live?
      modifies this
      ensures View() == Step(old(View()), Update(id, sample))
      ensures Bandwidth(guards) <= USIZE_MAX ==> Exact(View())
    {
      StepExact(View(), Update(id, sample));
      var past := guards[id].bandwidth;
      var next := Average(past, sample);
      if next >= past {
        total := (total + (next - past)) % (USIZE_MAX + 1);
      } else {
        total := Elapsed(total, past - next);
      }
      guards := guards[id := Live(next)];
    }

    method DropGuard(id: nat)
      requires Exact(View()) && id < |guards| && guards[id].Live?
      modifies this
      ensures Exact(View()) && guards == old(guards)[id := Gone]
      ensures active == old(active) - 1 && total == old(total) - old(guards)[id].bandwidth
      ensures View() == Step(Step(old(View()), Release(id)), Finish(id))
    {
      StepExact(View(), Release(id));
      Replaced(guards, id, Closing);
      total := Elapsed(total, guards[id].bandwidth);
      guards := guards[id := Closing];
      StepExact(View(), Finish(id));
      Replaced(guards, id, Gone);
      active := Elapsed(active, 1);
      guards := guards[id := Gone];
    }
  }
}
