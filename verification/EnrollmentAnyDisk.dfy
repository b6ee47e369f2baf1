/** What enrollment promises on any directory whatever, including one it did not write. */
module EnrollmentAnyDisk {
  import opened Texts
  import opened EnrollmentModel
  import opened EnrollmentResume

  predicate IsPending(n: Name) {
    n == PendingKey || n == PendingRecord
  }

  /** Every file of `before` is in `after`, as it was. */
  predicate Extends(before: Disk, after: Disk) {
    forall n :: n in before ==> n in after && after[n] == before[n]
  }

  /** The same for the files that are not pending ones. */
  predicate Preserves(before: Disk, after: Disk) {
    forall n :: n in before && !IsPending(n) ==> n in after && after[n] == before[n]
  }

  predicate Holds(disk: Disk, entries: seq<Entry>) {
    forall k :: 0 <= k < |entries| ==> entries[k].name in disk && disk[entries[k].name] == entries[k].file
  }

  lemma {:induction false} WritesExtend(m: Machine, entries: seq<Entry>, j: nat)
    requires j <= |entries| && forall k :: 0 <= k < j ==>
        entries[k].name in m.disk && m.disk[entries[k].name] == entries[k].file
    ensures Extends(m.disk, DiskAfter(WriteFrom(m, entries, j)))
    ensures WriteFrom(m, entries, j).Done? ==> Holds(DiskAfter(WriteFrom(m, entries, j)), entries)
    decreases |entries| - j
  {
    if j < |entries| {
      var first := Write(m, entries[j].name, entries[j].file);
      if first.Done? {
        WritesExtend(first.progress.after, entries, j + 1);
      }
    }
  }

  lemma {:induction false} RemovePendingPreserves(m: Machine)
    ensures Preserves(m.disk, DiskAfter(RemovePending(m)))
    ensures RemovePending(m).Done? ==>
        PendingKey !in DiskAfter(RemovePending(m)) && PendingRecord !in DiskAfter(RemovePending(m))
  {
  }

  /** The ten files of a usable bundle for this code and key, and nothing pending. */
  ghost predicate Installed(w: World, directory: Text, code: Code, disk: Disk, now: nat, key: Text, b: Bundle) {
    && Fingerprint(w, key).Some? && HostBinding(w).Some?
    && BundleUsable(w, b, Fingerprint(w, key).value, code.configurationDigest, now)
    && Holds(disk, Manifest(directory, code, b, Fingerprint(w, key).value, key, HostBinding(w).value))
    && PendingKey !in disk && PendingRecord !in disk
  }

  lemma {:induction false} ManifestNotPending(
    directory: Text, code: Code, b: Bundle, fingerprint: Text, key: Text, host: Text)
    ensures forall k :: 0 <= k < 10 ==> !IsPending(Manifest(directory, code, b, fingerprint, key, host)[k].name)
  {
  }

  lemma {:induction false} PreservesHolds(before: Disk, after: Disk, entries: seq<Entry>)
    requires Preserves(before, after) && Holds(before, entries)
    requires forall k :: 0 <= k < |entries| ==> !IsPending(entries[k].name)
    ensures Holds(after, entries)
  {
  }

  lemma {:induction false} RecordedPreserves(w: World, directory: Text, code: Code, m: Machine, a: Attempt, key: Text)
    requires Fingerprint(w, key).Some?
    ensures var r := EnrollRecorded(w, directory, code, m, a, key);
      && Preserves(m.disk, DiskAfter(r))
      && (r.Done? ==> exists b: Bundle :: Installed(w, directory, code, DiskAfter(r), a.now, key, b))
  {
    var fingerprint := Fingerprint(w, key).value;
    var claimed := ClaimBundle(w, code, a, ClaimFor(w, code, fingerprint, w.csr(key, code.enrollmentId)));
    if claimed.Granted? && Marker !in m.disk && HostBinding(w).Some? {
      var files := Manifest(directory, code, claimed.bundle, fingerprint, key, HostBinding(w).value);
      WritesExtend(m, files, 0);
      var installed := WriteFrom(m, files, 0);
      if installed.Done? {
        RemovePendingPreserves(installed.progress.after);
        ManifestNotPending(directory, code, claimed.bundle, fingerprint, key, HostBinding(w).value);
        PreservesHolds(installed.progress.after.disk, DiskAfter(RemovePending(installed.progress.after)), files);
        if RemovePending(installed.progress.after).Done? {
          assert Installed(w, directory, code, DiskAfter(RemovePending(installed.progress.after)), a.now, key,
                           claimed.bundle);
        }
      }
    }
  }

  lemma {:induction false} EnrollKeyPreserves(w: World, directory: Text, code: Code, m: Machine, a: Attempt, key: Text)
    requires Fingerprint(w, key).Some?
    ensures var r := EnrollKey(w, directory, code, m, a, key);
      && Preserves(m.disk, DiskAfter(r))
      && (r.Done? ==> exists b: Bundle :: Installed(w, directory, code, DiskAfter(r), a.now, key, b))
  {
    var expected := PendingFor(w, code, Fingerprint(w, key).value, w.csr(key, code.enrollmentId));
    var recorded := ValidateOrWritePending(m, expected);
    if recorded.Done? {
      RecordedPreserves(w, directory, code, recorded.progress.after, a, key);
    }
  }

  lemma {:induction false} RetryOutcome(w: World, code: Code, m: Machine, now: nat)
    ensures var r := CompletedRetry(w, code, m, now);
      || (DiskAfter(r) == m.disk && (r.Done? && r.progress.value.None? ==> r.progress.after == m))
      || (DiskAfter(r) == DiskAfter(RemovePending(m)) && (r.Done? ==> r.progress.value.Some?))
  {
  }

  lemma {:induction false} RetryPreserves(w: World, code: Code, m: Machine, now: nat)
    ensures var r := CompletedRetry(w, code, m, now);
      Preserves(m.disk, DiskAfter(r)) && (r.Done? && r.progress.value.None? ==> r.progress.after == m)
  {
    RetryOutcome(w, code, m, now);
    RemovePendingPreserves(m);
  }

  lemma {:induction false} KeyExtends(w: World, m: Machine, newKey: Text)
    ensures Extends(m.disk, DiskAfter(LoadOrCreateKey(w, m, newKey)))
  {
  }

  /** No run ever changes or drops a file that is not one of its two pending ones. */
  lemma {:induction false} EnrollPreserves(w: World, directory: Text, code: Code, m: Machine, a: Attempt)
    ensures Preserves(m.disk, DiskAfter(Enroll(w, directory, code, m, a)))
  {
    RetryPreserves(w, code, m, a.now);
    KeyExtends(w, m, a.newKey);
    var loaded := LoadOrCreateKey(w, m, a.newKey);
    if loaded.Done? && Marker !in m.disk {
      EnrollKeyPreserves(w, directory, code, loaded.progress.after, a, loaded.progress.value);
    }
  }

  /** A run that reports success without a marker to go by has installed one whole usable bundle. */
  lemma {:induction false} EnrollSucceedsOnlyComplete(w: World, directory: Text, code: Code, m: Machine, a: Attempt)
    requires Marker !in m.disk && Enroll(w, directory, code, m, a).Done?
    ensures exists key: Text, b: Bundle ::
        Installed(w, directory, code, DiskAfter(Enroll(w, directory, code, m, a)), a.now, key, b)
  {
    var loaded := LoadOrCreateKey(w, m, a.newKey);
    EnrollKeyPreserves(w, directory, code, loaded.progress.after, a, loaded.progress.value);
  }
}
