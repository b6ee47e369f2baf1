/** An interrupted enrollment picks up where it stopped and ends where an uninterrupted one does. */
module EnrollmentResume {
  import opened Basics
  import opened Texts
  import opened EnrollmentModel

  // Installing a list of files, from any point at which it was interrupted.

  /** The disk with the first `k` entries put on it. */
  function Put(base: Disk, entries: seq<Entry>, k: nat): Disk
    requires k <= |entries|
  {
    if k == 0 then base else Put(base, entries, k - 1)[entries[k - 1].name := entries[k - 1].file]
  }

  /** Different entries have different names, none of them on the disk already. */
  ghost predicate Installable(base: Disk, entries: seq<Entry>) {
    && (forall i, j :: 0 <= i < j < |entries| ==> entries[i].name != entries[j].name)
    && (forall i :: 0 <= i < |entries| ==> entries[i].name !in base)
  }

  lemma {:induction false} PutHolds(base: Disk, entries: seq<Entry>, k: nat)
    requires Installable(base, entries) && k <= |entries|
    ensures forall i :: 0 <= i < k ==>
      entries[i].name in Put(base, entries, k) && Put(base, entries, k)[entries[i].name] == entries[i].file
    ensures forall n :: n in base ==> n in Put(base, entries, k) && Put(base, entries, k)[n] == base[n]
    ensures forall i :: k <= i < |entries| ==> entries[i].name !in Put(base, entries, k)
    ensures forall n :: n in Put(base, entries, k) && n !in base ==> exists i :: 0 <= i < k && entries[i].name == n
  {
    if k > 0 {
      PutHolds(base, entries, k - 1);
    }
  }

  lemma {:induction false} PutWithout(base: Disk, entries: seq<Entry>, k: nat, name: Name)
    requires k <= |entries| && forall i :: 0 <= i < |entries| ==> entries[i].name != name
    ensures Put(base, entries, k) - {name} == Put(base - {name}, entries, k)
  {
    if k > 0 {
      PutWithout(base, entries, k - 1, name);
    }
  }

  lemma {:induction false} WriteResumes(base: Disk, entries: seq<Entry>, j: nat, k: nat, budget: nat)
    requires Installable(base, entries) && j <= k <= |entries| && j < |entries|
    ensures Write(Machine(Put(base, entries, k), budget), entries[j].name, entries[j].file) ==
      if j < k then Return(Machine(Put(base, entries, k), budget), ())
      else if budget == 0 then Crashed(Put(base, entries, k))
      else Return(Machine(Put(base, entries, k + 1), budget - 1), ())
  {
    PutHolds(base, entries, k);
  }

  /** How installing ends with `k` files in place and power for `budget` more. */
  function InstallEnd(base: Disk, entries: seq<Entry>, k: nat, budget: nat): Exec<()>
    requires k <= |entries|
  {
    if budget >= |entries| - k then Return(Machine(Put(base, entries, |entries|), budget - (|entries| - k)), ())
    else Crashed(Put(base, entries, k + budget))
  }

  ghost predicate WritesEnd(base: Disk, entries: seq<Entry>, j: nat, k: nat, budget: nat)
    requires j <= k <= |entries|
  {
    WriteFrom(Machine(Put(base, entries, k), budget), entries, j) == InstallEnd(base, entries, k, budget)
  }

  lemma {:induction false} PassOver(base: Disk, entries: seq<Entry>, j: nat, k: nat, budget: nat)
    requires Installable(base, entries) && j < k <= |entries| && WritesEnd(base, entries, j + 1, k, budget)
    ensures WritesEnd(base, entries, j, k, budget)
  {
    WriteResumes(base, entries, j, k, budget);
  }

  lemma {:induction false} InstallNext(base: Disk, entries: seq<Entry>, k: nat, budget: nat)
    requires Installable(base, entries) && k < |entries|
    requires budget > 0 ==> WritesEnd(base, entries, k + 1, k + 1, budget - 1)
    ensures WritesEnd(base, entries, k, k, budget)
  {
    WriteResumes(base, entries, k, k, budget);
  }

  /** With `k` files in place, the installs already done are passed over and the rest follow in order. */
  lemma {:induction false} WritesResume(base: Disk, entries: seq<Entry>, j: nat, k: nat, budget: nat)
    requires Installable(base, entries) && j <= k <= |entries|
    ensures WritesEnd(base, entries, j, k, budget)
    decreases |entries| - j
  {
    if j < k {
      WritesResume(base, entries, j + 1, k, budget);
      PassOver(base, entries, j, k, budget);
    } else if k < |entries| {
      if budget > 0 {
        WritesResume(base, entries, j + 1, k + 1, budget - 1);
      }
      InstallNext(base, entries, k, budget);
    }
  }

  // The disks an enrollment passes through.

  datatype Plan = Plan(w: World, directory: Text, code: Code, key: Text)

  /** The key is good, the broker answers its claim, and the host can be named. */
  ghost predicate Planned(p: Plan) {
    && Fingerprint(p.w, p.key).Some? && ValidDigest(PlanFingerprint(p)) && Size(p.key) <= MAX_PRIVATE_INPUT
    && p.w.broker(PlanClaim(p)).Some? && Echoes(p.w.broker(PlanClaim(p)).value, PlanClaim(p))
    && HostBinding(p.w).Some? && ValidDigest(HostBinding(p.w).value)
  }

  ghost function PlanFingerprint(p: Plan): Text
    requires Fingerprint(p.w, p.key).Some?
  {
    Fingerprint(p.w, p.key).value
  }

  ghost function PlanClaim(p: Plan): Claim
    requires Fingerprint(p.w, p.key).Some?
  {
    ClaimFor(p.w, p.code, PlanFingerprint(p), p.w.csr(p.key, p.code.enrollmentId))
  }

  ghost function PlanBundle(p: Plan): Bundle
    requires Planned(p)
  {
    p.w.broker(PlanClaim(p)).value.bundle
  }

  ghost function PlanManifest(p: Plan): seq<Entry>
    requires Planned(p)
  {
    Manifest(p.directory, p.code, PlanBundle(p), PlanFingerprint(p), p.key, HostBinding(p.w).value)
  }

  ghost function KeyOnly(p: Plan): Disk {
    map[PendingKey := File(Plain(p.key), PRIVATE)]
  }

  ghost function Recorded(p: Plan): Disk
    requires Planned(p)
  {
    KeyOnly(p)[PendingRecord := File(PendingJson(
      PendingFor(p.w, p.code, PlanFingerprint(p), p.w.csr(p.key, p.code.enrollmentId))), PRIVATE)]
  }

  const STEPS := 14

  /** The disk after `i` of the fourteen steps: key, record, ten installs, two removals. */
  ghost function Stage(p: Plan, i: nat): Disk
    requires Planned(p) && i <= STEPS
  {
    if i == 0 then map[]
    else if i == 1 then KeyOnly(p)
    else if i <= 12 then Put(Recorded(p), PlanManifest(p), i - 2)
    else if i == 13 then Put(KeyOnly(p), PlanManifest(p), 10)
    else Put(map[], PlanManifest(p), 10)
  }

  /** The code is usable and the broker's bundle valid at the time of the attempt. */
  ghost predicate Timely(p: Plan, now: nat)
    requires Planned(p)
  {
    && CodeUsable(p.w, p.code, now)
    && BundleUsable(p.w, PlanBundle(p), PlanFingerprint(p), p.code.configurationDigest, now)
  }

  lemma {:induction false} ManifestInstallable(p: Plan)
    requires Planned(p)
    ensures |PlanManifest(p)| == 10 && Installable(Recorded(p), PlanManifest(p))
    ensures Installable(KeyOnly(p), PlanManifest(p)) && Installable(map[], PlanManifest(p))
    ensures forall k :: 0 <= k < 9 ==> PlanManifest(p)[k].name != Marker
  {
  }

  /** What a stage short of the marker holds. */
  lemma {:induction false} EarlyStage(p: Plan, i: nat)
    requires Planned(p) && i <= 11
    ensures Marker !in Stage(p, i)
    ensures PendingKey in Stage(p, i) <==> i >= 1
    ensures PendingRecord in Stage(p, i) <==> i >= 2
    ensures i >= 1 ==> Stage(p, i)[PendingKey] == KeyOnly(p)[PendingKey]
    ensures i >= 2 ==> Stage(p, i)[PendingRecord] == Recorded(p)[PendingRecord]
  {
    ManifestInstallable(p);
    if i >= 2 {
      PutHolds(Recorded(p), PlanManifest(p), i - 2);
    }
  }

  /** What a stage from the marker on holds. */
  lemma {:induction false} LateStage(p: Plan, i: nat)
    requires Planned(p) && 12 <= i <= STEPS
    ensures |PlanManifest(p)| == 10
    ensures forall k :: 0 <= k < 10 ==> PlanManifest(p)[k].name in Stage(p, i)
    ensures forall k :: 0 <= k < 10 ==> Stage(p, i)[PlanManifest(p)[k].name] == PlanManifest(p)[k].file
    ensures PendingKey in Stage(p, i) <==> i <= 13
    ensures PendingRecord in Stage(p, i) <==> i <= 12
    ensures i <= 13 ==> Stage(p, i)[PendingKey] == KeyOnly(p)[PendingKey]
    ensures i <= 12 ==> Stage(p, i)[PendingRecord] == Recorded(p)[PendingRecord]
  {
    ManifestInstallable(p);
    PutHolds(if i == 12 then Recorded(p) else if i == 13 then KeyOnly(p) else map[], PlanManifest(p), 10);
  }

  // Each phase moves along the stages.

  lemma {:induction false} RemovalStages(p: Plan)
    requires Planned(p)
    ensures Stage(p, 12) - {PendingRecord} == Stage(p, 13)
    ensures Stage(p, 13) - {PendingKey} == Stage(p, STEPS)
  {
    ManifestInstallable(p);
    PutWithout(Recorded(p), PlanManifest(p), 10, PendingRecord);
    PutWithout(KeyOnly(p), PlanManifest(p), 10, PendingKey);
    assert Recorded(p) - {PendingRecord} == KeyOnly(p);
    assert KeyOnly(p) - {PendingKey} == map[];
  }

  lemma {:induction false} RemovalResumes(p: Plan, i: nat, budget: nat)
    requires Planned(p) && 12 <= i <= STEPS
    ensures RemovePending(Machine(Stage(p, i), budget)) ==
      if budget >= STEPS - i then Return(Machine(Stage(p, STEPS), budget - (STEPS - i)), ())
      else Crashed(Stage(p, i + budget))
  {
    RemovalStages(p);
    LateStage(p, i);
    if i == 12 {
      LateStage(p, 13);
    }
  }

  lemma {:induction false} InstallResumes(p: Plan, i: nat, budget: nat)
    requires Planned(p) && 2 <= i <= 11
    ensures Install(p.w, p.directory, p.code, Machine(Stage(p, i), budget), PlanBundle(p), PlanFingerprint(p), p.key) ==
      if budget >= 12 - i then Return(Machine(Stage(p, 12), budget - (12 - i)), ()) else Crashed(Stage(p, i + budget))
  {
    ManifestInstallable(p);
    EarlyStage(p, i);
    WritesResume(Recorded(p), PlanManifest(p), 0, i - 2, budget);
  }

  lemma {:induction false} FinishedRetryResumes(p: Plan, i: nat, budget: nat, now: nat)
    requires Planned(p) && 12 <= i <= STEPS && Timely(p, now)
    ensures CompletedRetry(p.w, p.code, Machine(Stage(p, i), budget), now) ==
      if budget >= STEPS - i then Return(Machine(Stage(p, STEPS), budget - (STEPS - i)), Some(PlanFingerprint(p)))
      else Crashed(Stage(p, i + budget))
  {
    LateStage(p, i);
    RemovalResumes(p, i, budget);
    var s, f := Stage(p, i), PlanManifest(p);
    assert s[f[1].name] == f[1].file && s[f[2].name] == f[2].file && s[f[9].name] == f[9].file;
  }

  lemma {:induction false} PendingResumes(p: Plan, i: nat, budget: nat)
    requires Planned(p) && 1 <= i <= 11
    ensures ValidateOrWritePending(
              Machine(Stage(p, i), budget),
              PendingFor(p.w, p.code, PlanFingerprint(p), p.w.csr(p.key, p.code.enrollmentId))) ==
      if i >= 2 then Return(Machine(Stage(p, i), budget), ())
      else if budget == 0 then Crashed(Stage(p, 1)) else Return(Machine(Stage(p, 2), budget - 1), ())
  {
    EarlyStage(p, i);
  }

  lemma {:induction false} KeyResumes(p: Plan, i: nat, budget: nat, newKey: Text)
    requires Planned(p) && i <= 11 && (i == 0 && budget > 0 ==> newKey == p.key)
    ensures LoadOrCreateKey(p.w, Machine(Stage(p, i), budget), newKey) ==
      if i >= 1 then Return(Machine(Stage(p, i), budget), p.key)
      else if budget == 0 then Crashed(Stage(p, 0)) else Return(Machine(Stage(p, 1), budget - 1), p.key)
  {
    EarlyStage(p, i);
  }

  /** How an attempt that starts at stage `i` ends. */
  ghost function Resumed(p: Plan, i: nat, budget: nat, online: bool): Exec<Text>
    requires Planned(p) && i <= STEPS
  {
    if online || i >= 12 then
      if budget >= STEPS - i then Return(Machine(Stage(p, STEPS), budget - (STEPS - i)), PlanFingerprint(p))
      else Crashed(Stage(p, i + budget))
    else if i + budget < 2 then Crashed(Stage(p, i + budget))
    else Failed(Stage(p, Max(i, 2)), "pairing_broker_unreachable")
  }

  lemma {:induction false} RecordedResumes(p: Plan, i: nat, budget: nat, a: Attempt)
    requires Planned(p) && 2 <= i <= 11 && Timely(p, a.now)
    ensures EnrollRecorded(p.w, p.directory, p.code, Machine(Stage(p, i), budget), a, p.key)
        == Resumed(p, i, budget, a.online)
  {
    InstallResumes(p, i, budget);
    if budget >= 12 - i {
      RemovalResumes(p, 12, budget - (12 - i));
    }
  }

  lemma {:induction false} EnrollKeyResumes(p: Plan, i: nat, budget: nat, a: Attempt)
    requires Planned(p) && 1 <= i <= 11 && Timely(p, a.now)
    ensures EnrollKey(p.w, p.directory, p.code, Machine(Stage(p, i), budget), a, p.key)
        == Resumed(p, i, budget, a.online)
  {
    PendingResumes(p, i, budget);
    if i >= 2 {
      RecordedResumes(p, i, budget, a);
    } else if budget > 0 {
      RecordedResumes(p, 2, budget - 1, a);
    }
  }

  lemma {:induction false} KeyedResumes(p: Plan, i: nat, budget: nat, a: Attempt)
    requires Planned(p) && 1 <= i <= 11 && Timely(p, a.now)
    ensures Enroll(p.w, p.directory, p.code, Machine(Stage(p, i), budget), a)
            == EnrollKey(p.w, p.directory, p.code, Machine(Stage(p, i), budget), a, p.key)
  {
    EarlyStage(p, i);
    KeyResumes(p, i, budget, a.newKey);
  }

  lemma {:induction false} FirstResumes(p: Plan, budget: nat, a: Attempt)
    requires Planned(p) && Timely(p, a.now) && (budget > 0 ==> a.newKey == p.key)
    ensures Enroll(p.w, p.directory, p.code, Machine(Stage(p, 0), budget), a) ==
      if budget == 0 then Crashed(Stage(p, 0))
      else EnrollKey(p.w, p.directory, p.code, Machine(Stage(p, 1), budget - 1), a, p.key)
  {
    EarlyStage(p, 0);
    KeyResumes(p, 0, budget, a.newKey);
  }

  /**
   One attempt from any stage: it never meets a conflict. With power for enough steps it ends
   with the finished directory, otherwise exactly as many steps further as it had power for;
   with the broker away it stops, without damage, where the broker is needed.
   */
  lemma {:induction false} EnrollResumes(p: Plan, i: nat, budget: nat, a: Attempt)
    requires Planned(p) && i <= STEPS && Timely(p, a.now) && (i == 0 && budget > 0 ==> a.newKey == p.key)
    ensures Enroll(p.w, p.directory, p.code, Machine(Stage(p, i), budget), a) == Resumed(p, i, budget, a.online)
  {
    if i >= 12 {
      FinishedRetryResumes(p, i, budget, a.now);
    } else {
      if i >= 1 {
        KeyedResumes(p, i, budget, a);
        EnrollKeyResumes(p, i, budget, a);
      } else {
        FirstResumes(p, budget, a);
        if budget > 0 {
          EnrollKeyResumes(p, 1, budget - 1, a);
        }
      }
    }
  }

  // Any number of interrupted attempts.

  datatype Trial = Trial(attempt: Attempt, budget: nat)

  function DiskAfter<T>(e: Exec<T>): Disk {
    match e
    case Done(progress) => progress.after.disk
    case Failed(disk, _) => disk
    case Crashed(disk) => disk
  }

  /** The disk that a series of attempts leaves, starting from an empty directory. */
  ghost function LeftBy(p: Plan, trials: seq<Trial>): Disk {
    if trials == [] then map[]
    else
      var last := trials[|trials| - 1];
      DiskAfter(Enroll(p.w, p.directory, p.code, Machine(LeftBy(p, trials[..|trials| - 1]), last.budget), last.attempt))
  }

  function Advance(i: nat, budget: nat, online: bool): nat {
    if online || i >= 12 then Min(STEPS, i + budget) else if i >= 2 then i else Min(2, i + budget)
  }

  function Reached(trials: seq<Trial>): nat {
    if trials == [] then 0
    else Advance(Reached(trials[..|trials| - 1]), trials[|trials| - 1].budget, trials[|trials| - 1].attempt.online)
  }

  /** Every attempt is timely, and the first that gets to write wrote the plan's key. */
  ghost predicate Attempted(p: Plan, trials: seq<Trial>)
    requires Planned(p)
  {
    && (forall k :: 0 <= k < |trials| ==> Timely(p, trials[k].attempt.now))
    && (forall k :: 0 <= k < |trials| && Reached(trials[..k]) == 0 && trials[k].budget > 0 ==>
        trials[k].attempt.newKey == p.key)
  }

  lemma {:induction false} AttemptedPrefix(p: Plan, trials: seq<Trial>)
    requires Planned(p) && Attempted(p, trials) && trials != []
    ensures Attempted(p, trials[..|trials| - 1])
  {
    var front := trials[..|trials| - 1];
    forall k | 0 <= k < |front|
      ensures front[..k] == trials[..k]
    {
    }
  }

  lemma {:induction false} AttemptReaches(p: Plan, i: nat, t: Trial)
    requires Planned(p) && i <= STEPS && Timely(p, t.attempt.now)
    requires i == 0 && t.budget > 0 ==> t.attempt.newKey == p.key
    ensures var next := Advance(i, t.budget, t.attempt.online);
      && next <= STEPS
      && DiskAfter(Enroll(p.w, p.directory, p.code, Machine(Stage(p, i), t.budget), t.attempt)) == Stage(p, next)
  {
    EnrollResumes(p, i, t.budget, t.attempt);
  }

  /** A series of attempts, each cut off anywhere, leaves a stage of one and the same plan. */
  lemma {:induction false} AttemptsReach(p: Plan, trials: seq<Trial>)
    requires Planned(p) && Attempted(p, trials)
    ensures Reached(trials) <= STEPS && LeftBy(p, trials) == Stage(p, Reached(trials))
  {
    if trials != [] {
      var front, last := trials[..|trials| - 1], trials[|trials| - 1];
      AttemptedPrefix(p, trials);
      AttemptsReach(p, front);
      AttemptReaches(p, Reached(front), last);
    }
  }

  /**
   After any interrupted attempts, one attempt with power and broker finishes, in the disk
   state of an uninterrupted run on an empty directory.
   */
  lemma {:induction false} InterruptedEnrollmentFinishes(p: Plan, trials: seq<Trial>, last: Trial)
    requires Planned(p) && Attempted(p, trials + [last]) && last.attempt.online && last.budget >= STEPS
    ensures var finished := Enroll(p.w, p.directory, p.code, Machine(LeftBy(p, trials), last.budget), last.attempt);
      var direct := Enroll(p.w, p.directory, p.code, Machine(map[], STEPS), last.attempt.(newKey := p.key));
      && finished.Done? && finished.progress.value == PlanFingerprint(p)
      && direct.Done? && finished.progress.after.disk == direct.progress.after.disk == Stage(p, STEPS)
  {
    var all := trials + [last];
    AttemptedPrefix(p, all);
    assert all[..|trials|] == trials && all[|trials|] == last;
    AttemptsReach(p, trials);
    EnrollResumes(p, Reached(trials), last.budget, last.attempt);
    EnrollResumes(p, 0, STEPS, last.attempt.(newKey := p.key));
  }

  /** The marker is only ever there with the other nine files complete. */
  lemma {:induction false} MarkerMeansComplete(p: Plan, trials: seq<Trial>)
    requires Planned(p) && Attempted(p, trials) && Marker in LeftBy(p, trials)
    ensures forall k :: 0 <= k < |PlanManifest(p)| ==> PlanManifest(p)[k].name in LeftBy(p, trials)
    ensures forall k :: 0 <= k < |PlanManifest(p)| ==>
        LeftBy(p, trials)[PlanManifest(p)[k].name] == PlanManifest(p)[k].file
  {
    AttemptsReach(p, trials);
    if Reached(trials) <= 11 {
      EarlyStage(p, Reached(trials));
    } else {
      LateStage(p, Reached(trials));
    }
  }

  predicate OtherCode(a: Code, b: Code) {
    a.enrollmentId != b.enrollmentId || a.configurationDigest != b.configurationDigest
  }

  lemma {:induction false} OtherCodeRefusedEarly(p: Plan, i: nat, budget: nat, a: Attempt, other: Code)
    requires Planned(p) && 2 <= i <= 11 && OtherCode(other, p.code)
    ensures var r := Enroll(p.w, p.directory, other, Machine(Stage(p, i), budget), a);
      r.Failed? && r.disk == Stage(p, i)
  {
    EarlyStage(p, i);
  }

  lemma {:induction false} OtherCodeRefusedLate(p: Plan, i: nat, budget: nat, a: Attempt, other: Code)
    requires Planned(p) && 12 <= i <= STEPS && OtherCode(other, p.code)
    ensures var r := Enroll(p.w, p.directory, other, Machine(Stage(p, i), budget), a);
      r.Failed? && r.disk == Stage(p, i)
  {
    LateStage(p, i);
    assert Stage(p, i)[PlanManifest(p)[9].name] == PlanManifest(p)[9].file;
  }

  /** From the pending record on, another code is refused and changes nothing. */
  lemma {:induction false} OtherCodeRefused(p: Plan, i: nat, budget: nat, a: Attempt, other: Code)
    requires Planned(p) && 2 <= i <= STEPS && OtherCode(other, p.code)
    ensures var r := Enroll(p.w, p.directory, other, Machine(Stage(p, i), budget), a);
      r.Failed? && r.disk == Stage(p, i)
  {
    if i <= 11 {
      OtherCodeRefusedEarly(p, i, budget, a, other);
    } else {
      OtherCodeRefusedLate(p, i, budget, a, other);
    }
  }
}
