/** The enrollment command as it works on the directory, file by file. */
module EnrollmentDirectory {
  import opened Basics
  import opened Texts
  import opened EnrollmentModel
  import opened EnrollmentResume
  import opened EnrollmentAnyDisk

  /** How a step comes back to its caller. */
  datatype Outcome<+T> = Value(value: T) | Error(error: Text) | PowerLoss {
    predicate IsFailure() {
      !Value?
    }

    function PropagateFailure<U>(): Outcome<U>
      requires IsFailure()
    {
      if Error? then Error(error) else PowerLoss
    }

    function Extract(): T
      requires !IsFailure()
    {
      value
    }
  }

  /** The directory stands at stage `i` of the plan, and the attempt is one the plan allows. */
  ghost predicate Standing(p: Plan, i: nat, w: World, directory: Text, code: Code, m: Machine, a: Attempt) {
    && p.w == w && p.directory == directory && p.code == code && Planned(p) && i <= STEPS && m.disk == Stage(p, i)
    && Timely(p, a.now) && (i == 0 && m.budget > 0 ==> a.newKey == p.key)
  }

  class Directory {
    var files: Disk
    var budget: nat

    constructor (budget: nat)
      ensures files == map[] && this.budget == budget
    {
      files, this.budget := map[], budget;
    }

    ghost function Now(): Machine
      reads this
    {
      Machine(files, budget)
    }

    ghost function Ended<T>(r: Outcome<T>): Exec<T>
      reads this
    {
      match r
      case Value(v) => Return(Now(), v)
      case Error(e) => Failed(files, e)
      case PowerLoss => Crashed(files)
    }

    method AtomicWrite(name: Name, content: Content, mode: nat) returns (r: Outcome<()>)
      modifies this
      ensures Ended(r) == Write(old(Now()), name, File(content, mode))
    {
      if name in files {
        if files[name].mode != mode {
          return Error("state_file_permissions");
        }
        return if files[name].content == content then Value(()) else Error("state_file_exists");
      }
      if budget == 0 {
        return PowerLoss;
      }
      files, budget := files[name := File(content, mode)], budget - 1;
      return Value(());
    }

    method RemoveFile(name: Name) returns (r: Outcome<()>)
      modifies this
      ensures Ended(r) == Remove(old(Now()), name)
    {
      if name !in files {
        return Value(());
      }
      if budget == 0 {
        return PowerLoss;
      }
      files, budget := files - {name}, budget - 1;
      return Value(());
    }

    method DropPending() returns (r: Outcome<()>)
      modifies this
      ensures Ended(r) == RemovePending(old(Now()))
    {
      var _ :- RemoveFile(PendingRecord);
      r := RemoveFile(PendingKey);
    }

    /** The command's consecutive installs, as a list: in order, stopping at the first conflict or power loss. */
    method WriteEntries(entries: seq<Entry>) returns (r: Outcome<()>)
      modifies this
      ensures Ended(r) == WriteFrom(old(Now()), entries, 0)
    {
      var i := 0;
      while i < |entries|
        invariant 0 <= i <= |entries|
        invariant WriteFrom(old(Now()), entries, 0) == WriteFrom(Now(), entries, i)
      {
        var _ :- AtomicWrite(entries[i].name, entries[i].file.content, entries[i].file.mode);
        i := i + 1;
      }
      return Value(());
    }

    method FinishedRetry(w: World, code: Code, now: nat) returns (r: Outcome<Option<Text>>)
      modifies this
      ensures Ended(r) == CompletedRetry(w, code, old(Now()), now)
    {
      if Marker !in files {
        return Value(None);
      }
      if !files[Marker].content.IdentityJson? || !IdentityWellFormed(files[Marker].content.identity) {
        return Error("relay_identity_marker_invalid");
      }
      var identity := files[Marker].content.identity;
      var installed := InstalledProblem(w, files, identity.keyFingerprint, now);
      if installed.Some? {
        return Error(installed.value);
      }
      if identity.enrollmentId != code.enrollmentId || identity.configurationDigest != code.configurationDigest {
        return Value(None);
      }
      var pending := PendingProblem(w, files, identity);
      if pending.Some? {
        return Error(pending.value);
      }
      var _ :- DropPending();
      return Value(Some(identity.keyFingerprint));
    }

    method PendingKeyText(w: World, newKey: Text) returns (r: Outcome<Text>)
      modifies this
      ensures Ended(r) == LoadOrCreateKey(w, old(Now()), newKey)
    {
      if PendingKey in files {
        var problem := PrivateProblem(w, files[PendingKey]);
        if problem.Some? {
          return Error(problem.value);
        }
        if KeyIn(w, files, PendingKey).None? {
          return Error("identity_key_invalid");
        }
        return Value(files[PendingKey].content.text);
      }
      if NodeKey in files {
        return Error("identity_key_exists");
      }
      var _ :- AtomicWrite(PendingKey, Plain(newKey), PRIVATE);
      return if Fingerprint(w, newKey).None? then Error("identity_key_invalid") else Value(newKey);
    }

    method RecordPending(expected: PendingIdentity) returns (r: Outcome<()>)
      modifies this
      ensures Ended(r) == ValidateOrWritePending(old(Now()), expected)
    {
      if PendingRecord in files {
        if !files[PendingRecord].content.PendingJson? {
          return Error("pairing_pending_invalid");
        }
        return if files[PendingRecord].content.pending == expected then Value(())
            else Error("pairing_pending_identity_changed");
      }
      r := AtomicWrite(PendingRecord, PendingJson(expected), PRIVATE);
    }

    method InstallIdentity(
      w: World, directory: Text, code: Code, b: Bundle, fingerprint: Text, key: Text) returns (r: Outcome<()>)
      modifies this
      ensures Ended(r) == Install(w, directory, code, old(Now()), b, fingerprint, key)
    {
      if Marker in files {
        return Error("relay_identity_exists");
      }
      var host := HostBinding(w);
      if host.None? {
        return Error("relay_host_identity_unavailable");
      }
      r := WriteEntries(Manifest(directory, code, b, fingerprint, key, host.value));
    }

    method InstallFor(
      w: World, directory: Text, code: Code, a: Attempt, key: Text, fingerprint: Text) returns (r: Outcome<Text>)
      requires Fingerprint(w, key) == Some(fingerprint)
      modifies this
      ensures Ended(r) == EnrollRecorded(w, directory, code, old(Now()), a, key)
    {
      var claimed := ClaimBundle(w, code, a, ClaimFor(w, code, fingerprint, w.csr(key, code.enrollmentId)));
      if claimed.Denied? {
        return Error(claimed.error);
      }
      var _ :- InstallIdentity(w, directory, code, claimed.bundle, fingerprint, key);
      var _ :- DropPending();
      return Value(fingerprint);
    }

    method EnrollSteps(w: World, directory: Text, code: Code, a: Attempt) returns (r: Outcome<Text>)
      modifies this
      ensures Ended(r) == Enroll(w, directory, code, old(Now()), a)
    {
      if !CodeUsable(w, code, a.now) {
        return Error("pairing_code_invalid");
      }
      var finished :- FinishedRetry(w, code, a.now);
      if finished.Some? {
        return Value(finished.value);
      }
      if Marker in files {
        return Error("relay_identity_exists");
      }
      var key :- PendingKeyText(w, a.newKey);
      var fingerprint := Fingerprint(w, key).value;
      var _ :- RecordPending(PendingFor(w, code, fingerprint, w.csr(key, code.enrollmentId)));
      r := InstallFor(w, directory, code, a, key, fingerprint);
    }

    /**
     The whole command. On any directory it leaves every file alone but its own two pending ones,
     and reports a first enrollment done only with one whole usable bundle installed; from a
     directory that earlier attempts of the same plan left, it ends as the plan foresees.
     */
    method RelayEnroll(w: World, directory: Text, code: Code, a: Attempt) returns (r: Outcome<Text>)
      modifies this
      ensures Preserves(old(files), files)
      ensures r.Value? && Marker !in old(files) ==>
        exists key: Text, b: Bundle :: Installed(w, directory, code, files, a.now, key, b)
      ensures forall p: Plan, i: nat :: Standing(p, i, w, directory, code, old(Now()), a) ==>
        Ended(r) == Resumed(p, i, old(budget), a.online)
    {
      ghost var before := Now();
      r := EnrollSteps(w, directory, code, a);
      EnrollPreserves(w, directory, code, before, a);
      if r.Value? && Marker !in before.disk {
        EnrollSucceedsOnlyComplete(w, directory, code, before, a);
      }
      forall p: Plan, i: nat | Standing(p, i, w, directory, code, before, a)
        ensures Ended(r) == Resumed(p, i, before.budget, a.online)
      {
        EnrollResumes(p, i, before.budget, a);
      }
    }
  }
}
