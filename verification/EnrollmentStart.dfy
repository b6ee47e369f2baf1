/** The directory an enrollment leaves, and exactly when a relay starts on it. */
module EnrollmentStart {
  import opened Basics
  import opened Texts
  import opened EnrollmentModel
  import opened EnrollmentResume
  import opened EnrollmentAnyDisk
  import opened EnrollmentPreflight

  // What the installed files are.

  predicate Complete(disk: Disk) {
    && Guarded(disk, NodeId) && Guarded(disk, NodeKey) && Guarded(disk, NodeCert) && Guarded(disk, RelayCa)
    && Guarded(disk, CenterKey) && Guarded(disk, TelemetrySecret) && Guarded(disk, HostId)
    && Guarded(disk, RelayConfig) && Guarded(disk, CompatEnv) && Guarded(disk, Marker)
  }

  predicate Guarded(disk: Disk, n: Name) {
    n in disk && WriteProtected(disk[n].mode)
  }

  lemma {:induction false} InstalledFiles(
    w: World, directory: Text, code: Code, disk: Disk, now: nat, key: Text, b: Bundle)
    requires Installed(w, directory, code, disk, now, key, b)
    ensures Complete(disk) && OwnerOnly(disk[NodeKey].mode) && OwnerOnly(disk[TelemetrySecret].mode)
    ensures disk[NodeId].content == Plain(b.nodeId + "\n") && disk[NodeKey].content == Plain(key)
    ensures disk[NodeCert].content == Plain(b.nodeCertificate) && disk[RelayCa].content == Plain(b.relayCa)
    ensures disk[CenterKey].content == Plain(b.centerKey + "\n")
    ensures disk[TelemetrySecret].content == Plain(b.telemetrySecret + "\n")
    ensures disk[HostId].content == Plain(HostBinding(w).value + "\n")
    ensures disk[RelayConfig].content == RuntimeJson(RuntimeFor(directory, b))
    ensures disk[CompatEnv].content == Plain(Compatibility(directory, b.centerKey, RuntimeFor(directory, b)))
    ensures disk[Marker].content == IdentityJson(IdentityFor(code, b, Fingerprint(w, key).value, HostBinding(w).value))
  {
    var files := Manifest(directory, code, b, Fingerprint(w, key).value, key, HostBinding(w).value);
    assert files[0].name in disk && files[1].name in disk && files[2].name in disk && files[3].name in disk;
    assert files[4].name in disk && files[5].name in disk && files[6].name in disk && files[7].name in disk;
    assert files[8].name in disk && files[9].name in disk;
  }

  lemma {:induction false} BundleSolid(w: World, b: Bundle, fingerprint: Text, configurationDigest: Text, now: nat)
    requires WorldSound(w) && BundleUsable(w, b, fingerprint, configurationDigest, now)
    ensures Solid(b.centerKey) && |b.centerKey| <= 44 && Solid(b.telemetrySecret) && |b.telemetrySecret| <= 44
    ensures Solid(b.publicEndpoint)
  {
  }

  lemma {:induction false} InstalledTexts(
    w: World, directory: Text, code: Code, disk: Disk, enrolled: nat, key: Text, b: Bundle)
    requires WorldSound(w) && Installed(w, directory, code, disk, enrolled, key, b)
    ensures ReadTrimmed(disk, HostId, 128) == HostBinding(w)
    ensures ReadTrimmed(disk, CenterKey, 256) == Some(b.centerKey)
    ensures ReadTrimmed(disk, TelemetrySecret, 128) == Some(b.telemetrySecret)
    ensures ReadTrimmed(disk, NodeId, 128) == Some(b.nodeId) <==> Tidy(b.nodeId) && !HasControl(b.nodeId)
  {
    InstalledFiles(w, directory, code, disk, enrolled, key, b);
    BundleSolid(w, b, Fingerprint(w, key).value, code.configurationDigest, enrolled);
    DigestSolid(HostBinding(w).value);
    SolidSize(HostBinding(w).value);
    SolidSize(b.centerKey);
    SolidSize(b.telemetrySecret);
    ReadsBack(disk, HostId, HostBinding(w).value, disk[HostId].mode, 128);
    ReadsBack(disk, CenterKey, b.centerKey, disk[CenterKey].mode, 256);
    ReadsBack(disk, TelemetrySecret, b.telemetrySecret, disk[TelemetrySecret].mode, 128);
    ReadsBack(disk, NodeId, b.nodeId, disk[NodeId].mode, 128);
  }

  lemma {:induction false} InstalledIdentity(
    w: World, directory: Text, code: Code, disk: Disk, enrolled: nat, key: Text, b: Bundle, now: nat)
    requires Installed(w, directory, code, disk, enrolled, key, b) && CodeUsable(w, code, enrolled)
    requires ValidDigest(Fingerprint(w, key).value)
    ensures Marker in disk && RelayConfig in disk
    ensures disk[Marker].content.IdentityJson? && disk[RelayConfig].content.RuntimeJson?
    ensures FieldsAgree(w, disk[Marker].content.identity, disk[RelayConfig].content.runtime)
    ensures IdentityHolds(w, disk, disk[Marker].content.identity, now) <==> Unexpired(w, b, now)
  {
    InstalledFiles(w, directory, code, disk, enrolled, key, b);
  }

  lemma {:induction false} InstalledEnvironment(dataDir: Text, b: Bundle)
    requires Lacks(dataDir, '\n') && Solid(b.centerKey) && Solid(b.publicEndpoint)
    ensures var directory := Join(dataDir, "starry/enrollment");
      var env := Loaded(Compatibility(directory, b.centerKey, RuntimeFor(directory, b)));
      && Lookup(env, SERVER_KEY) == Some(b.centerKey) && Lookup(env, ENROLLMENT_DIR) == Some(directory)
      && EnvironmentAgrees(env, directory, RuntimeFor(directory, b))
  {
    var directory := Join(dataDir, "starry/enrollment");
    SolidReads(b.centerKey);
    SolidReads(b.publicEndpoint);
    assert Lacks("starry/enrollment", '\n');
    ExportedLoads(directory, b.centerKey, RuntimeFor(directory, b));
    ExportedFound(directory, b.centerKey, RuntimeFor(directory, b));
    ExportedAgrees(directory, b.centerKey, b);
  }

  // What can still keep an installed relay from starting; enrollment itself checks none of it.

  ghost predicate Unexpired(w: World, b: Bundle, now: nat) {
    && w.certificate(b.nodeCertificate).Some? && now < w.certificate(b.nodeCertificate).value.notAfter
    && w.certificate(b.relayCa).Some? && now < w.certificate(b.relayCa).value.notAfter
  }

  /** The files whose size enrollment does not bound are not empty and within 64 KiB. */
  ghost predicate Sized(w: World, directory: Text, code: Code, key: Text, b: Bundle)
    requires Fingerprint(w, key).Some? && HostBinding(w).Some?
  {
    && Fits(Size(b.nodeCertificate)) && Fits(Size(b.relayCa)) && Fits(Size(key))
    && Fits(w.jsonSize(RuntimeJson(RuntimeFor(directory, b))))
    && Fits(w.jsonSize(IdentityJson(IdentityFor(code, b, Fingerprint(w, key).value, HostBinding(w).value))))
    && Fits(Size(Compatibility(directory, b.centerKey, RuntimeFor(directory, b))))
  }

  ghost predicate Startable(w: World, directory: Text, code: Code, key: Text, b: Bundle, now: nat)
    requires Fingerprint(w, key).Some? && HostBinding(w).Some?
  {
    && Tidy(b.nodeId) && !HasControl(b.nodeId) && Sized(w, directory, code, key, b) && Unexpired(w, b, now)
    && !Contains(Compatibility(directory, b.centerKey, RuntimeFor(directory, b)), b.telemetrySecret)
  }

  lemma {:induction false} InstalledSizes(
    w: World, directory: Text, code: Code, disk: Disk, enrolled: nat, key: Text, b: Bundle)
    requires WorldSound(w) && Installed(w, directory, code, disk, enrolled, key, b)
    ensures FilesSafe(w, disk) <==> Sized(w, directory, code, key, b)
  {
    InstalledFiles(w, directory, code, disk, enrolled, key, b);
    BundleSolid(w, b, Fingerprint(w, key).value, code.configurationDigest, enrolled);
    DigestSolid(HostBinding(w).value);
    SolidSize(HostBinding(w).value);
    SolidSize(b.centerKey);
    SolidSize(b.telemetrySecret);
    SizeAppend(b.nodeId, '\n');
  }

  /**
   The directory an enrollment leaves, with the environment loaded from the file it exported,
   passes every check of the relay's start-up exactly when the node id has no outer blanks or
   control characters, the files enrollment does not bound are within 64 KiB, the telemetry
   secret does not show in the exported text, and the certificates have not run out since.
   */
  lemma {:induction false} FinishedDirectoryStarts(
    w: World, dataDir: Text, code: Code, disk: Disk, enrolled: nat, key: Text, b: Bundle, now: nat)
    requires WorldSound(w) && Absolute(dataDir) && Lacks(dataDir, '\n') && CodeUsable(w, code, enrolled)
    requires Installed(w, Join(dataDir, "starry/enrollment"), code, disk, enrolled, key, b)
    ensures Starts(w, disk, dataDir, now) <==> Startable(w, Join(dataDir, "starry/enrollment"), code, key, b, now)
  {
    var directory := Join(dataDir, "starry/enrollment");
    InstalledFiles(w, directory, code, disk, enrolled, key, b);
    InstalledSizes(w, directory, code, disk, enrolled, key, b);
    IdentityDecides(w, directory, disk, enrolled, key, code, b, now);
    BundleSolid(w, b, Fingerprint(w, key).value, code.configurationDigest, enrolled);
    InstalledEnvironment(dataDir, b);
    ExportDecides(w, directory, disk, enrolled, key, code, b, Loaded(disk[CompatEnv].content.text));
    RemainingChecks(w, disk, Loaded(disk[CompatEnv].content.text), dataDir, b.centerKey, now, RuntimeFor(directory, b));
  }

  /** The relay starts on this directory with the environment the directory exports. */
  ghost predicate Starts(w: World, disk: Disk, dataDir: Text, now: nat) {
    && CompatEnv in disk && disk[CompatEnv].content.Plain?
    && var env := Loaded(disk[CompatEnv].content.text);
       Lookup(env, SERVER_KEY).Some? && Preflight(w, disk, env, dataDir, Lookup(env, SERVER_KEY).value, now) == None
  }

  /** With directory, marker and fields in order, three groups of checks are left. */
  lemma {:induction false} RemainingChecks(
    w: World, disk: Disk, env: Environment, dataDir: Text, key: Text, now: nat, r: Runtime)
    requires Absolute(dataDir) && Lookup(env, ENROLLMENT_DIR) == Some(Join(dataDir, "starry/enrollment"))
    requires Marker in disk && RelayConfig in disk
    requires disk[Marker].content.IdentityJson? && disk[RelayConfig].content == RuntimeJson(r)
    requires FieldsAgree(w, disk[Marker].content.identity, r)
    ensures Preflight(w, disk, env, dataDir, key, now) == None <==>
      && FilesSafe(w, disk) && IdentityProblem(w, disk, disk[Marker].content.identity, now) == None
      && ExportProblem(w, disk, env, Join(dataDir, "starry/enrollment"), key, r) == None
  {
  }

  /** With the files as installed, only the secret's absence from the exported text is left to decide. */
  lemma {:induction false} ExportDecides(
    w: World, directory: Text, disk: Disk, enrolled: nat, key: Text, code: Code, b: Bundle, env: Environment)
    requires WorldSound(w) && Installed(w, directory, code, disk, enrolled, key, b)
    requires EnvironmentAgrees(env, directory, RuntimeFor(directory, b))
    ensures ExportProblem(w, disk, env, directory, b.centerKey, RuntimeFor(directory, b)) == None <==>
            !Contains(Compatibility(directory, b.centerKey, RuntimeFor(directory, b)), b.telemetrySecret)
  {
    InstalledFiles(w, directory, code, disk, enrolled, key, b);
    InstalledTexts(w, directory, code, disk, enrolled, key, b);
    BundleSolid(w, b, Fingerprint(w, key).value, code.configurationDigest, enrolled);
    SolidReads(b.centerKey);
  }

  lemma {:induction false} IdentityDecides(
    w: World, directory: Text, disk: Disk, enrolled: nat, key: Text, code: Code, b: Bundle, now: nat)
    requires WorldSound(w) && Installed(w, directory, code, disk, enrolled, key, b) && CodeUsable(w, code, enrolled)
    ensures Marker in disk && RelayConfig in disk
    ensures disk[Marker].content.IdentityJson? && disk[RelayConfig].content == RuntimeJson(RuntimeFor(directory, b))
    ensures FieldsAgree(w, disk[Marker].content.identity, RuntimeFor(directory, b))
    ensures IdentityProblem(w, disk, disk[Marker].content.identity, now) == None <==>
            Tidy(b.nodeId) && !HasControl(b.nodeId) && Unexpired(w, b, now)
  {
    InstalledFiles(w, directory, code, disk, enrolled, key, b);
    InstalledTexts(w, directory, code, disk, enrolled, key, b);
    InstalledIdentity(w, directory, code, disk, enrolled, key, b, now);
  }

  /** The last stage of an enrollment is an installed directory. */
  lemma {:induction false} LastStageInstalled(p: Plan, now: nat)
    requires Planned(p) && Timely(p, now)
    ensures Installed(p.w, p.directory, p.code, Stage(p, STEPS), now, p.key, PlanBundle(p))
  {
    LateStage(p, STEPS);
  }

  /** End to end: however often it was cut off, a finished enrollment starts exactly when it is startable. */
  lemma {:induction false} EnrolledRelayStarts(p: Plan, dataDir: Text, trials: seq<Trial>, last: Trial, now: nat)
    requires WorldSound(p.w) && Absolute(dataDir) && Lacks(dataDir, '\n')
    requires p.directory == Join(dataDir, "starry/enrollment")
    requires Planned(p) && Attempted(p, trials + [last]) && last.attempt.online && last.budget >= STEPS
    ensures var finished := Enroll(p.w, p.directory, p.code, Machine(LeftBy(p, trials), last.budget), last.attempt);
      && finished.Done?
      && (Starts(p.w, finished.progress.after.disk, dataDir, now)
          <==> Startable(p.w, p.directory, p.code, p.key, PlanBundle(p), now))
  {
    InterruptedEnrollmentFinishes(p, trials, last);
    assert (trials + [last])[|trials|] == last;
    LastStageInstalled(p, last.attempt.now);
    FinishedDirectoryStarts(p.w, dataDir, p.code, Stage(p, STEPS), last.attempt.now, p.key, PlanBundle(p), now);
  }

  /** The same for one uninterrupted run. */
  lemma {:induction false} DirectEnrollmentStarts(p: Plan, dataDir: Text, at: nat, now: nat)
    requires WorldSound(p.w) && Absolute(dataDir) && Lacks(dataDir, '\n')
    requires p.directory == Join(dataDir, "starry/enrollment") && Planned(p) && Timely(p, at)
    ensures var finished := Enroll(p.w, p.directory, p.code, Machine(map[], STEPS), Attempt(at, p.key, true));
      && finished.Done?
      && (Starts(p.w, finished.progress.after.disk, dataDir, now)
          <==> Startable(p.w, p.directory, p.code, p.key, PlanBundle(p), now))
  {
    var last := Trial(Attempt(at, p.key, true), STEPS);
    assert [] + [last] == [last];
    EnrolledRelayStarts(p, dataDir, [], last, now);
  }

  // Bundles that enroll and then cannot start.

  lemma {:induction false} Filled(c: char, n: nat) returns (r: Text)
    ensures |r| == n && forall i :: 0 <= i < n ==> r[i] == c
  {
    r := seq(n, _ => c);
  }

  predicate UuidForm(t: Text) {
    |t| == 36 && forall i :: 0 <= i < 36 ==> if i in {8, 13, 18, 23} then t[i] == '-' else IsLowerHex(t[i])
  }

  predicate Encodes32(t: Text, length: nat) {
    |t| == length && forall i :: 0 <= i < |t| ==> IsBase64(t[i])
  }

  /** Decoders that take 32 bytes in their usual form, and a broker that offers this bundle. */
  function Offering(b: Bundle, digest: Text): World {
    World(key => Some(key), text => digest, (key, name) => "csr", text => UuidForm(text),
          pem => if pem == "" then None else Some(Certificate("", 0, 100)), (leaf, issuer) => true,
          text => if Encodes32(text, 44) then Some(32) else None,
          text => if Encodes32(text, 43) then Some(32) else None, text => true, bundle => digest,
          (claim: Claim) => Some(Response(1, claim.purpose, claim.enrollmentId, claim.configurationDigest,
                                          claim.requestDigest, claim.keyFingerprint, b)),
          Some("host"), content => 400)
  }

  /** A bundle of the right form: keys that encode 32 bytes and the plain profile. */
  ghost predicate Formed(b: Bundle) {
    && b.nodeId != "" && Size(b.nodeId) <= 128 && b.relayServer == b.publicEndpoint && SafeEnvValue(b.relayServer)
    && 0 < b.maxSessions <= 1_000_000 && 0 < b.capacityBandwidth && b.relayPool != "" && Size(b.relayPool) <= 128
    && b.profile == "native" && b.wssEndpoint == None && b.fastMediaPort == None
    && Encodes32(b.telemetrySecret, 43) && Encodes32(b.centerKey, 44) && b.nodeCertificate != "" && b.relayCa != ""
  }

  ghost predicate CodeFormed(code: Code, digest: Text) {
    && code.configurationDigest == digest && UuidForm(code.enrollmentId) && Encodes32(code.secret, 43)
    && code.expiresAt == 10
  }

  function OfferPlan(b: Bundle, digest: Text, code: Code): Plan {
    Plan(Offering(b, digest), Join("/data", "starry/enrollment"), code, "pem")
  }

  lemma {:induction false} OfferPlanned(b: Bundle, digest: Text, code: Code)
    requires ValidDigest(digest)
    ensures Planned(OfferPlan(b, digest, code)) && PlanBundle(OfferPlan(b, digest, code)) == b
    ensures PlanFingerprint(OfferPlan(b, digest, code)) == digest
  {
    assert !HasControl("host");
    AsciiSize("host");
    AsciiSize("pem");
  }

  lemma {:induction false} SafeSize(t: Text)
    requires SafeEnvValue(t)
    ensures t != "" && Size(t) <= 256
  {
    AsciiSize(t);
  }

  lemma {:induction false} OfferTimely(b: Bundle, digest: Text, code: Code)
    requires ValidDigest(digest) && Formed(b) && CodeFormed(code, digest)
    ensures CodeUsable(Offering(b, digest), code, 0) && BundleUsable(Offering(b, digest), b, digest, digest, 0)
  {
    SafeSize(b.relayServer);
  }

  /** Enrollment of such a bundle succeeds, and the relay starts exactly when it is startable. */
  lemma {:induction false} OfferEnrolls(b: Bundle, digest: Text, code: Code, now: nat)
    requires ValidDigest(digest) && Formed(b) && CodeFormed(code, digest)
    ensures var p := OfferPlan(b, digest, code);
      var enrolled := Enroll(p.w, p.directory, p.code, Machine(map[], STEPS), Attempt(0, p.key, true));
      && enrolled.Done? && Fingerprint(p.w, p.key).Some? && HostBinding(p.w).Some?
      && (Starts(p.w, enrolled.progress.after.disk, "/data", now)
          <==> Startable(p.w, p.directory, p.code, p.key, b, now))
  {
    OfferPlanned(b, digest, code);
    OfferTimely(b, digest, code);
    DirectEnrollmentStarts(OfferPlan(b, digest, code), "/data", 0, now);
  }

  const SAMPLE_UUID: Text := "01900000-0000-7000-8000-000000000000"

  lemma {:induction false} SampleUuid()
    ensures UuidForm(SAMPLE_UUID)
  {
  }

  lemma {:induction false} PoolSize()
    ensures Size("pool") <= 128
  {
    AsciiSize("pool");
  }

  lemma {:induction false} Sample(nodeId: Text, ca: Text) returns (b: Bundle, digest: Text, code: Code)
    requires nodeId != "" && Size(nodeId) <= 128 && ca != ""
    ensures ValidDigest(digest) && Formed(b) && CodeFormed(code, digest) && b.nodeId == nodeId && b.relayCa == ca
  {
    var zeros := Filled('0', 64);
    digest := "sha256:" + zeros;
    assert digest[..7] == "sha256:";
    var key := Filled('A', 44);
    var secret := Filled('B', 43);
    assert SafeEnvValue("relay");
    PoolSize();
    b := Bundle(nodeId, "relay", "relay", "leaf", ca, key, secret, 1, 1, false, "pool", "native", None, true, None);
    SampleUuid();
    code := Code(SAMPLE_UUID, digest, secret, 10);
  }

  /** The plan enrolls, and its relay never starts. */
  ghost predicate EnrollsButNeverStarts(p: Plan, now: nat) {
    var enrolled := Enroll(p.w, p.directory, p.code, Machine(map[], STEPS), Attempt(0, p.key, true));
    enrolled.Done? && !Starts(p.w, enrolled.progress.after.disk, "/data", now)
  }

  /** A node id with a blank at its end. */
  lemma {:induction false} BlankNodeIdCannotStart(now: nat) returns (p: Plan)
    ensures Planned(p) && PlanBundle(p).nodeId == "node " && EnrollsButNeverStarts(p, now)
  {
    AsciiSize("node ");
    var b, digest, code := Sample("node ", "ca");
    p := OfferPlan(b, digest, code);
    OfferPlanned(b, digest, code);
    OfferEnrolls(b, digest, code, now);
    assert b.nodeId[4] == ' ';
  }

  /** An authority certificate whose text is one byte over 64 KiB. */
  lemma {:induction false} OversizedCaCannotStart(now: nat) returns (p: Plan)
    ensures Planned(p) && Size(PlanBundle(p).relayCa) == MAX_STATE_FILE + 1 && EnrollsButNeverStarts(p, now)
  {
    AsciiSize("node");
    var ca := Filled('D', MAX_STATE_FILE + 1);
    AsciiSize(ca);
    var b, digest, code := Sample("node", ca);
    p := OfferPlan(b, digest, code);
    OfferPlanned(b, digest, code);
    OfferEnrolls(b, digest, code, now);
  }
}
