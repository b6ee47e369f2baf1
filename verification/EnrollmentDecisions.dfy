/** Exactly which enrollment commands succeed, on any directory whatever. */
module EnrollmentDecisions {
  import opened Basics
  import opened Texts
  import opened EnrollmentModel
  import opened EnrollmentResume
  import opened EnrollmentAnyDisk

  // What is required of code, bundle and marker, field by field.

  ghost predicate DigestFormed(t: Text) {
    && |t| == 71 && t[..7] == "sha256:"
    && forall i :: 7 <= i < 71 ==> '0' <= t[i] <= '9' || 'a' <= t[i] <= 'f'
  }

  /** A code of an enrollment, its configuration and a 32-byte secret, good for an hour at most. */
  ghost predicate CodeGood(w: World, code: Code, now: nat) {
    && w.isUuid(code.enrollmentId) && DigestFormed(code.configurationDigest) && w.decodedUrl(code.secret) == Some(32)
    && now < code.expiresAt <= now + 3600
  }

  /** The certificate is for this key's fingerprint, and both certificates are valid now. */
  ghost predicate Certified(w: World, b: Bundle, fingerprint: Text, now: nat) {
    && w.certificate(b.nodeCertificate).Some? && w.certificate(b.relayCa).Some?
    && var leaf, ca := w.certificate(b.nodeCertificate).value, w.certificate(b.relayCa).value;
       && w.digest(leaf.publicKey) == fingerprint && leaf.notBefore <= now < leaf.notAfter
       && ca.notBefore <= now < ca.notAfter && w.chained(b.nodeCertificate, b.relayCa)
  }

  /** One of the three profiles, with what it needs and nothing more. */
  ghost predicate Profiled(w: World, b: Bundle) {
    || (b.profile == "native" && b.wssEndpoint.None? && b.fastMediaPort.None?)
    || (b.profile == "native-wss" && b.wssEndpoint.Some? && w.endpointOk(b.wssEndpoint.value) && b.fastMediaPort.None?)
    || (b.profile == "native-wss-fastmedia" && b.wssEndpoint.Some? && w.endpointOk(b.wssEndpoint.value)
        && b.fastMediaPort.Some? && b.fastMediaPort.value > 0)
  }

  /** The ASCII letters, digits and `-` `.` `:` `[` `]` `_`, by their codes. */
  ghost predicate EndpointCode(n: int) {
    45 <= n <= 46 || 48 <= n <= 58 || 65 <= n <= 91 || n == 93 || n == 95 || 97 <= n <= 122
  }

  /** A bundle of the promised configuration, with its fields in range, its keys of 32 bytes, certified for the key. */
  ghost predicate BundleGood(w: World, b: Bundle, fingerprint: Text, configurationDigest: Text, now: nat) {
    && w.configurationDigest(b) == configurationDigest && Certified(w, b, fingerprint, now) && Profiled(w, b)
    && 0 < |b.nodeId| && Size(b.nodeId) <= 128 && b.relayServer == b.publicEndpoint && Size(b.relayServer) <= 256
    && 0 < |b.relayServer| <= 256 && (forall i :: 0 <= i < |b.relayServer| ==> EndpointCode(b.relayServer[i] as int))
    && 1 <= b.maxSessions <= 1_000_000 && 1 <= b.capacityBandwidth && 0 < |b.relayPool| && Size(b.relayPool) <= 128
    && w.decodedUrl(b.telemetrySecret) == Some(32) && w.decoded(b.centerKey) == Some(32)
  }

  ghost predicate MarkerGood(i: Identity) {
    && i.version == 1 && i.purpose == "relay" && i.generation >= 1 && 0 < |i.nodeId| && Size(i.nodeId) <= 128
    && 0 < |i.relayServer| && Size(i.relayServer) <= 256 && DigestFormed(i.hostBinding)
    && DigestFormed(i.configurationDigest) && DigestFormed(i.keyFingerprint)
  }

  lemma {:induction false} CodeExactly(w: World, code: Code, now: nat)
    ensures CodeUsable(w, code, now) <==> CodeGood(w, code, now)
  {
  }

  lemma {:induction false} BundleExactly(w: World, b: Bundle, fingerprint: Text, configurationDigest: Text, now: nat)
    ensures BundleUsable(w, b, fingerprint, configurationDigest, now) <==>
      BundleGood(w, b, fingerprint, configurationDigest, now)
  {
  }

  lemma {:induction false} MarkerExactly(i: Identity)
    ensures IdentityWellFormed(i) <==> MarkerGood(i)
  {
  }

  // Each phase, with power enough.

  /** Closed to others and of at most a megabyte. */
  ghost predicate ReadableKey(w: World, disk: Disk, n: Name, key: Text) {
    && n in disk && disk[n].mode % 64 == 0 && FileSize(w, disk[n]) <= 1_048_576
    && disk[n].content == Plain(key) && w.publicKey(key).Some?
  }

  /** The key the attempt goes by: the pending one, or else, unless a node key is there already, its own. */
  ghost predicate KeyReady(w: World, disk: Disk, newKey: Text, key: Text) {
    if PendingKey in disk then ReadableKey(w, disk, PendingKey, key)
    else NodeKey !in disk && key == newKey && w.publicKey(key).Some?
  }

  ghost predicate Goes<T>(e: Exec<T>, budget: nat, cost: nat) {
    !e.Crashed? && (e.Done? ==> e.progress.after.budget + cost >= budget)
  }

  lemma {:induction false} KeyExactly(w: World, m: Machine, newKey: Text)
    requires m.budget >= 1
    ensures var loaded := LoadOrCreateKey(w, m, newKey);
      && Goes(loaded, m.budget, 1)
      && (loaded.Done? <==> exists key :: KeyReady(w, m.disk, newKey, key))
      && (loaded.Done? ==>
            && KeyReady(w, m.disk, newKey, loaded.progress.value)
            && loaded.progress.after.disk ==
               if PendingKey in m.disk then m.disk else m.disk[PendingKey := File(Plain(newKey), 0x180)])
  {
    var loaded := LoadOrCreateKey(w, m, newKey);
    if loaded.Done? {
      assert KeyReady(w, m.disk, newKey, loaded.progress.value);
    }
  }

  ghost function KeyPrint(w: World, key: Text): Text
    requires w.publicKey(key).Some?
  {
    w.digest(w.publicKey(key).value)
  }

  /** What the claim is bound to, one line each. */
  ghost function ClaimText(w: World, code: Code, key: Text): Text
    requires w.publicKey(key).Some?
  {
    "starry-pairing-claim-v1\nrelay\nenroll\n" + code.enrollmentId + "\n" + code.configurationDigest + "\n"
    + KeyPrint(w, key) + "\n" + w.digest(w.csr(key, code.enrollmentId)) + "\n"
  }

  ghost function RecordOf(w: World, code: Code, key: Text): PendingIdentity
    requires w.publicKey(key).Some?
  {
    PendingIdentity(1, "relay", "enroll", code.enrollmentId, code.configurationDigest,
                    w.digest(ClaimText(w, code, key)),
                    KeyPrint(w, key), w.digest(w.csr(key, code.enrollmentId)), None)
  }

  lemma {:induction false} RecordExactly(w: World, m: Machine, code: Code, key: Text)
    requires w.publicKey(key).Some? && m.budget >= 1
    ensures var expected := PendingFor(w, code, KeyPrint(w, key), w.csr(key, code.enrollmentId));
      var recorded := ValidateOrWritePending(m, expected);
      && expected == RecordOf(w, code, key) && Goes(recorded, m.budget, 1)
      && (recorded.Done? <==>
            (PendingRecord in m.disk ==> m.disk[PendingRecord].content == PendingJson(RecordOf(w, code, key))))
      && (recorded.Done? && PendingRecord in m.disk ==> recorded.progress.after.disk == m.disk)
      && (recorded.Done? && PendingRecord !in m.disk ==>
            recorded.progress.after.disk ==
            m.disk[PendingRecord := File(PendingJson(RecordOf(w, code, key)), 0x180)])
  {
  }

  /** The broker answers this very claim with a good bundle, in time. */
  ghost predicate Answered(w: World, code: Code, a: Attempt, key: Text, b: Bundle)
    requires w.publicKey(key).Some?
  {
    var fingerprint, request := KeyPrint(w, key), w.digest(ClaimText(w, code, key));
    && a.online && a.now < code.expiresAt
    && w.broker(Claim(1, "relay", "enroll", code.enrollmentId, code.configurationDigest, code.secret, request,
                      fingerprint, w.csr(key, code.enrollmentId)))
       == Some(Response(1, "relay", code.enrollmentId, code.configurationDigest, request, fingerprint, b))
    && BundleGood(w, b, fingerprint, code.configurationDigest, a.now)
  }

  lemma {:induction false} ClaimExactly(w: World, code: Code, a: Attempt, key: Text, b: Bundle)
    requires w.publicKey(key).Some?
    ensures ClaimBundle(w, code, a, ClaimFor(w, code, KeyPrint(w, key), w.csr(key, code.enrollmentId))) == Granted(b)
      <==> Answered(w, code, a, key, b)
  {
    var claim := ClaimFor(w, code, KeyPrint(w, key), w.csr(key, code.enrollmentId));
    if w.broker(claim).Some? {
      BundleExactly(w, w.broker(claim).value.bundle, KeyPrint(w, key), code.configurationDigest, a.now);
    }
  }

  /** None of these files is there with other content or mode. */
  ghost predicate Clear(disk: Disk, entries: seq<Entry>, j: nat) {
    forall k :: j <= k < |entries| && entries[k].name in disk ==> disk[entries[k].name] == entries[k].file
  }

  ghost predicate Distinct(entries: seq<Entry>) {
    forall i, j :: 0 <= i < j < |entries| ==> entries[i].name != entries[j].name
  }

  lemma {:induction false} WriteStep(m: Machine, entries: seq<Entry>, j: nat)
    requires Distinct(entries) && j < |entries| && m.budget >= 1
    ensures var first := Write(m, entries[j].name, entries[j].file);
      && Goes(first, m.budget, 1)
      && (Clear(m.disk, entries, j) <==> first.Done? && Clear(first.progress.after.disk, entries, j + 1))
  {
    var first := Write(m, entries[j].name, entries[j].file);
    if first.Done? && Clear(first.progress.after.disk, entries, j + 1) {
      forall k | j <= k < |entries| && entries[k].name in m.disk
        ensures m.disk[entries[k].name] == entries[k].file
      {
        assert k > j ==> first.progress.after.disk[entries[k].name] == m.disk[entries[k].name];
      }
    }
    if Clear(m.disk, entries, j) { assert entries[j].name in m.disk ==> m.disk[entries[j].name] == entries[j].file; }
  }

  lemma {:induction false} WritesExactly(m: Machine, entries: seq<Entry>, j: nat)
    requires Distinct(entries) && j <= |entries| && m.budget >= |entries| - j
    ensures Goes(WriteFrom(m, entries, j), m.budget, |entries| - j)
    ensures WriteFrom(m, entries, j).Done? <==> Clear(m.disk, entries, j)
    decreases |entries| - j
  {
    if j < |entries| {
      WriteStep(m, entries, j);
      var first := Write(m, entries[j].name, entries[j].file);
      if first.Done? { WritesExactly(first.progress.after, entries, j + 1); }
    }
  }

  lemma {:induction false} RemovalGoes(m: Machine)
    requires m.budget >= 2
    ensures RemovePending(m).Done?
  {
  }

  // A directory without a marker.

  /** The broker answers, the host can be named, and none of the ten files is there as another. */
  ghost predicate Provided(w: World, directory: Text, code: Code, disk: Disk, a: Attempt, key: Text, b: Bundle)
    requires w.publicKey(key).Some?
  {
    && Answered(w, code, a, key, b) && HostBinding(w).Some?
    && Clear(disk, Manifest(directory, code, b, KeyPrint(w, key), key, HostBinding(w).value), 0)
  }

  /** What the attempt goes by is there or can be had, and nothing on the disk is in its way. */
  ghost predicate Unhindered(w: World, directory: Text, code: Code, disk: Disk, a: Attempt, key: Text, b: Bundle) {
    && KeyReady(w, disk, a.newKey, key)
    && (PendingRecord in disk ==> disk[PendingRecord].content == PendingJson(RecordOf(w, code, key)))
    && Provided(w, directory, code, disk, a, key, b)
  }

  lemma {:induction false} ManifestDistinct(
    directory: Text, code: Code, b: Bundle, fingerprint: Text, key: Text, host: Text)
    ensures var files := Manifest(directory, code, b, fingerprint, key, host);
      |files| == 10 && Distinct(files) && forall k :: 0 <= k < 10 ==> !IsPending(files[k].name)
  {
  }

  /** Pending files are in no install's way. */
  lemma {:induction false} PendingClear(
    w: World, directory: Text, code: Code, disk: Disk, disk': Disk, a: Attempt, key: Text, b: Bundle)
    requires forall n :: !IsPending(n) ==> (n in disk <==> n in disk') && (n in disk ==> disk'[n] == disk[n])
    requires w.publicKey(key).Some?
    ensures Provided(w, directory, code, disk, a, key, b) <==> Provided(w, directory, code, disk', a, key, b)
  {
    if HostBinding(w).Some? {
      ManifestDistinct(directory, code, b, KeyPrint(w, key), key, HostBinding(w).value);
    }
  }

  lemma {:induction false} SameProvided(
    w: World, directory: Text, code: Code, disk: Disk, disk': Disk, a: Attempt, key: Text)
    requires forall n :: !IsPending(n) ==> (n in disk <==> n in disk') && (n in disk ==> disk'[n] == disk[n])
    requires w.publicKey(key).Some?
    ensures (exists b :: Provided(w, directory, code, disk, a, key, b)) <==>
      exists b :: Provided(w, directory, code, disk', a, key, b)
  {
    forall b
      ensures Provided(w, directory, code, disk, a, key, b) <==> Provided(w, directory, code, disk', a, key, b)
    {
      PendingClear(w, directory, code, disk, disk', a, key, b);
    }
  }

  lemma {:induction false} InstallExactly(
    w: World, directory: Text, code: Code, m: Machine, a: Attempt, key: Text, b: Bundle)
    requires w.publicKey(key).Some? && m.budget >= 12 && Marker !in m.disk && Answered(w, code, a, key, b)
    ensures EnrollRecorded(w, directory, code, m, a, key).Done? <==>
      Provided(w, directory, code, m.disk, a, key, b)
  {
    ClaimExactly(w, code, a, key, b);
    if HostBinding(w).Some? {
      var files := Manifest(directory, code, b, KeyPrint(w, key), key, HostBinding(w).value);
      ManifestDistinct(directory, code, b, KeyPrint(w, key), key, HostBinding(w).value);
      WritesExactly(m, files, 0);
      var written := WriteFrom(m, files, 0);
      if written.Done? { RemovalGoes(written.progress.after); }
    }
  }

  lemma {:induction false} RecordedExactly(w: World, directory: Text, code: Code, m: Machine, a: Attempt, key: Text)
    requires w.publicKey(key).Some? && m.budget >= 12 && Marker !in m.disk
    ensures EnrollRecorded(w, directory, code, m, a, key).Done? <==>
      exists b :: Provided(w, directory, code, m.disk, a, key, b)
  {
    var claimed := ClaimBundle(w, code, a, ClaimFor(w, code, KeyPrint(w, key), w.csr(key, code.enrollmentId)));
    forall b ensures Answered(w, code, a, key, b) <==> claimed == Granted(b) {
      ClaimExactly(w, code, a, key, b);
    }
    if claimed.Granted? {
      InstallExactly(w, directory, code, m, a, key, claimed.bundle);
    }
  }

  lemma {:induction false} KeyedExactly(
    w: World, directory: Text, code: Code, disk: Disk, m: Machine, a: Attempt, key: Text)
    requires KeyReady(w, disk, a.newKey, key) && Marker !in disk && m.budget >= 13
    requires m.disk == if PendingKey in disk then disk else disk[PendingKey := File(Plain(key), 0x180)]
    ensures EnrollKey(w, directory, code, m, a, key).Done? <==>
      exists b :: Unhindered(w, directory, code, disk, a, key, b)
  {
    RecordExactly(w, m, code, key);
    var recorded := ValidateOrWritePending(m, RecordOf(w, code, key));
    assert EnrollKey(w, directory, code, m, a, key).Done? ==> recorded.Done?;
    if recorded.Done? {
      var m' := recorded.progress.after;
      assert EnrollKey(w, directory, code, m, a, key) == EnrollRecorded(w, directory, code, m', a, key);
      RecordedExactly(w, directory, code, m', a, key);
      SameProvided(w, directory, code, disk, m'.disk, a, key);
      if b :| Provided(w, directory, code, disk, a, key, b) {
        assert Unhindered(w, directory, code, disk, a, key, b);
      }
    }
  }

  // A directory with one.

  /** It says the enrollment under this code is finished, and the node's key and certificate bear it out. */
  ghost predicate Finished(w: World, code: Code, disk: Disk, now: nat, i: Identity, key: Text) {
    && Marker in disk && disk[Marker].content == IdentityJson(i) && MarkerGood(i)
    && i.enrollmentId == code.enrollmentId && i.configurationDigest == code.configurationDigest
    && ReadableKey(w, disk, NodeKey, key) && KeyPrint(w, key) == i.keyFingerprint
    && NodeCert in disk && disk[NodeCert].content.Plain? && w.certificate(disk[NodeCert].content.text).Some?
    && var leaf := w.certificate(disk[NodeCert].content.text).value;
       w.digest(leaf.publicKey) == i.keyFingerprint && leaf.notBefore <= now < leaf.notAfter
  }

  /** What is still pending, if anything, is of that enrollment. */
  ghost predicate OwnPending(w: World, disk: Disk, i: Identity) {
    && (PendingRecord in disk ==>
          && disk[PendingRecord].content.PendingJson?
          && var record := disk[PendingRecord].content.pending;
             && record.version == 1 && record.purpose == "relay" && record.enrollmentId == i.enrollmentId
             && record.configurationDigest == i.configurationDigest && record.keyFingerprint == i.keyFingerprint)
    && (PendingKey in disk ==>
          exists key :: ReadableKey(w, disk, PendingKey, key) && KeyPrint(w, key) == i.keyFingerprint)
  }

  lemma {:induction false} InstalledExactly(w: World, disk: Disk, fingerprint: Text, now: nat)
    ensures InstalledProblem(w, disk, fingerprint, now) == None <==>
      && (exists key :: ReadableKey(w, disk, NodeKey, key) && KeyPrint(w, key) == fingerprint)
      && NodeCert in disk && disk[NodeCert].content.Plain? && w.certificate(disk[NodeCert].content.text).Some?
      && var leaf := w.certificate(disk[NodeCert].content.text).value;
         w.digest(leaf.publicKey) == fingerprint && leaf.notBefore <= now < leaf.notAfter
  {
    if NodeKey in disk && disk[NodeKey].content.Plain? {
      var key := disk[NodeKey].content.text;
      assert InstalledProblem(w, disk, fingerprint, now) == None ==> ReadableKey(w, disk, NodeKey, key);
    }
  }

  lemma {:induction false} PendingExactly(w: World, disk: Disk, i: Identity)
    ensures PendingProblem(w, disk, i) == None <==> OwnPending(w, disk, i)
  {
    if PendingKey in disk && disk[PendingKey].content.Plain? {
      var key := disk[PendingKey].content.text;
      assert PendingProblem(w, disk, i) == None ==> ReadableKey(w, disk, PendingKey, key);
    }
  }

  lemma {:induction false} RetryExactly(w: World, code: Code, m: Machine, now: nat)
    requires Marker in m.disk && m.budget >= 2
    ensures var r := CompletedRetry(w, code, m, now);
      r.Done? && r.progress.value.Some? <==>
      exists i, key :: Finished(w, code, m.disk, now, i, key) && OwnPending(w, m.disk, i)
  {
    RemovalGoes(m);
    if m.disk[Marker].content.IdentityJson? {
      var i := m.disk[Marker].content.identity;
      MarkerExactly(i);
      InstalledExactly(w, m.disk, i.keyFingerprint, now);
      PendingExactly(w, m.disk, i);
      var r := CompletedRetry(w, code, m, now);
      if r.Done? && r.progress.value.Some? {
        var key :| ReadableKey(w, m.disk, NodeKey, key) && KeyPrint(w, key) == i.keyFingerprint;
        assert Finished(w, code, m.disk, now, i, key);
      }
    }
  }

  // The command.

  /**
   With power for fourteen steps, exactly when the command succeeds, whatever is on the disk: the code is
   good, and either the marker's finished enrollment is its own, or without a marker its key and record
   are usable, the broker answers this claim with a good bundle, and no other file is in the way.
   */
  lemma {:induction false} EnrollExactly(w: World, directory: Text, code: Code, m: Machine, a: Attempt)
    requires m.budget >= 14
    ensures Enroll(w, directory, code, m, a).Done? <==>
      && CodeGood(w, code, a.now)
      && if Marker in m.disk
         then exists i, key :: Finished(w, code, m.disk, a.now, i, key) && OwnPending(w, m.disk, i)
         else exists key, b :: Unhindered(w, directory, code, m.disk, a, key, b)
  {
    CodeExactly(w, code, a.now);
    if Marker in m.disk {
      RetryExactly(w, code, m, a.now);
    } else if CodeUsable(w, code, a.now) {
      UnmarkedExactly(w, directory, code, m, a);
    }
  }

  lemma {:induction false} OneKey(w: World, disk: Disk, newKey: Text, key: Text, key': Text)
    requires KeyReady(w, disk, newKey, key) && KeyReady(w, disk, newKey, key')
    ensures key == key'
  {
  }

  lemma {:induction false} UnmarkedExactly(w: World, directory: Text, code: Code, m: Machine, a: Attempt)
    requires m.budget >= 14 && Marker !in m.disk && CodeUsable(w, code, a.now)
    ensures Enroll(w, directory, code, m, a).Done? <==>
      exists key, b :: Unhindered(w, directory, code, m.disk, a, key, b)
  {
    KeyExactly(w, m, a.newKey);
    var loaded := LoadOrCreateKey(w, m, a.newKey);
    if loaded.Done? {
      var key := loaded.progress.value;
      KeyedExactly(w, directory, code, m.disk, loaded.progress.after, a, key);
      forall other, b | Unhindered(w, directory, code, m.disk, a, other, b) ensures other == key {
        OneKey(w, m.disk, a.newKey, key, other);
      }
    }
  }

  /** A path is joined with one slash, whether or not the directory's name ends with one. */
  lemma {:induction false} JoinExactly(parent: Text, name: Text)
    requires parent == "" || parent[|parent| - 1] != '/'
    ensures Join(parent, name) == parent + "/" + name == Join(parent + "/", name)
  {
  }

  /** The ten files an enrollment leaves, with their modes. */
  lemma {:induction false} InstalledIs(
    w: World, directory: Text, code: Code, disk: Disk, now: nat, key: Text, b: Bundle)
    requires Installed(w, directory, code, disk, now, key, b)
    ensures w.publicKey(key).Some? && w.hostId.Some?
    ensures NodeId in disk && NodeKey in disk && NodeCert in disk && RelayCa in disk && CenterKey in disk
    ensures TelemetrySecret in disk && HostId in disk && RelayConfig in disk && CompatEnv in disk && Marker in disk
    ensures var host := w.digest(w.hostId.value);
      var runtime := Runtime(1, b.nodeId, b.relayServer, b.publicEndpoint, Join(directory, "telemetry.secret"),
                             b.maxSessions, b.capacityBandwidth, b.draining, b.relayPool, b.profile, b.wssEndpoint,
                             b.activateAfterHealth, b.fastMediaPort);
      && disk[NodeId] == File(Plain(b.nodeId + "\n"), 0x1A0) && disk[NodeKey] == File(Plain(key), 0x180)
      && disk[NodeCert] == File(Plain(b.nodeCertificate), 0x1A0) && disk[RelayCa] == File(Plain(b.relayCa), 0x1A0)
      && disk[CenterKey] == File(Plain(b.centerKey + "\n"), 0x1A0)
      && disk[TelemetrySecret] == File(Plain(b.telemetrySecret + "\n"), 0x180)
      && disk[HostId] == File(Plain(host + "\n"), 0x180) && disk[RelayConfig] == File(RuntimeJson(runtime), 0x1A0)
      && disk[CompatEnv] == File(Plain(Lines(Exported(directory, b.centerKey, runtime))), 0x1A0)
      && disk[Marker] == File(IdentityJson(Identity(1, "relay", code.enrollmentId, code.configurationDigest, b.nodeId,
                                                    b.relayServer, KeyPrint(w, key), host, 1)), 0x180)
  {
    var files := Manifest(directory, code, b, Fingerprint(w, key).value, key, HostBinding(w).value);
    assert files[0].name in disk && files[1].name in disk && files[2].name in disk && files[3].name in disk;
    assert files[4].name in disk && files[5].name in disk && files[6].name in disk && files[7].name in disk;
    assert files[8].name in disk && files[9].name in disk;
  }
}
