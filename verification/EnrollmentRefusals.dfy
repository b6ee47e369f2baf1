/** Exactly what a relay starts on, and so which foreign or altered directories it refuses. */
module EnrollmentRefusals {
  import opened Basics
  import opened Texts
  import opened EnrollmentModel
  import opened EnrollmentAnyDisk
  import opened EnrollmentPreflight
  import opened EnrollmentStart

  // What the start-up check requires, subject by subject.

  /** The file's text, but for blanks around it, is this one, short and printable. */
  ghost predicate Says(disk: Disk, n: Name, t: Text, maximum: nat) {
    && n in disk && disk[n].content.Plain? && Trim(disk[n].content.text) == t
    && 0 < |t| && Size(t) <= maximum && forall k :: 0 <= k < |t| ==> !IsControl(t[k])
  }

  /** Present, not writable by others, of one byte to 64 KiB; keys and secrets closed to others altogether. */
  ghost predicate Kept(w: World, disk: Disk, n: Name) {
    && n in disk && disk[n].mode / 16 % 2 == 0 && disk[n].mode / 2 % 2 == 0 && 1 <= FileSize(w, disk[n]) <= 65_536
    && (n == NodeKey || n == TelemetrySecret ==> disk[n].mode % 64 == 0)
  }

  ghost predicate AllKept(w: World, disk: Disk) {
    forall n :: !IsPending(n) ==> Kept(w, disk, n)
  }

  ghost predicate ProfileWhole(w: World, r: Runtime) {
    || (r.profile == "native" && r.wssEndpoint.None? && r.fastMediaPort.None?)
    || (r.profile == "native-wss" && r.wssEndpoint.Some? && w.endpointOk(r.wssEndpoint.value) && r.fastMediaPort.None?)
    || (r.profile == "native-wss-fastmedia" && r.wssEndpoint.Some? && w.endpointOk(r.wssEndpoint.value)
        && r.fastMediaPort.Some? && r.fastMediaPort.value > 0)
  }

  ghost predicate RuntimeWhole(w: World, r: Runtime) {
    && r.version == 1 && 1 <= r.maxSessions <= 1_000_000 && r.capacityBandwidth >= 1
    && r.relayServer == r.publicEndpoint && 0 < |r.relayPool| && Size(r.relayPool) <= 128 && ProfileWhole(w, r)
  }

  ghost predicate MarkerWhole(w: World, i: Identity) {
    && i.version == 1 && i.purpose == "relay" && i.generation >= 1 && 0 < |i.nodeId| && Size(i.nodeId) <= 128
    && w.isUuid(i.enrollmentId) && ValidDigest(i.configurationDigest)
    && |i.keyFingerprint| == 71 && i.keyFingerprint[..7] == "sha256:"
  }

  /** The certificate in the file, not yet expired. */
  ghost predicate Certifies(w: World, disk: Disk, n: Name, now: nat, c: Certificate) {
    n in disk && disk[n].content.Plain? && w.certificate(disk[n].content.text) == Some(c) && now < c.notAfter
  }

  /** The node's key and certificate are those of the marker, and the authority signed the certificate. */
  ghost predicate NodeProven(w: World, disk: Disk, i: Identity, now: nat) {
    && Says(disk, NodeId, i.nodeId, 128) && NodeKey in disk && disk[NodeKey].content.Plain?
    && w.publicKey(disk[NodeKey].content.text).Some?
    && w.digest(w.publicKey(disk[NodeKey].content.text).value) == i.keyFingerprint
    && (exists c :: Certifies(w, disk, NodeCert, now, c) && w.digest(c.publicKey) == i.keyFingerprint)
    && (exists c :: Certifies(w, disk, RelayCa, now, c))
    && w.chained(disk[NodeCert].content.text, disk[RelayCa].content.text)
  }

  /** The directory was made on this very machine. */
  ghost predicate HostProven(w: World, disk: Disk, i: Identity) {
    && w.hostId.Some? && Size(w.hostId.value) <= 512
    && (forall k :: 0 <= k < |w.hostId.value| ==> !IsControl(w.hostId.value[k]))
    && Says(disk, HostId, w.digest(w.hostId.value), 128) && i.hostBinding == w.digest(w.hostId.value)
  }

  /** The process was given what the configuration says. */
  ghost predicate Given(env: Environment, directory: Text, r: Runtime) {
    && Lookup(env, SECRET_FILE) == Some(Join(directory, "telemetry.secret"))
    && Lookup(env, PUBLIC_ENDPOINT).Some? && Trim(Lookup(env, PUBLIC_ENDPOINT).value) == r.publicEndpoint
    && Lookup(env, MAX_SESSIONS).Some?
    && ParseDecimal(Lookup(env, MAX_SESSIONS).value, 0xFFFF_FFFF) == Some(r.maxSessions)
    && Lookup(env, CAPACITY).Some? && ParseDecimal(Lookup(env, CAPACITY).value, 0xFFFF_FFFF_FFFF_FFFF)
        == Some(r.capacityBandwidth)
    && Lookup(env, DRAINING) == Some(if r.draining then "1" else "0")
    && r.fastMediaPort ==
       if Lookup(env, MEDIA_PORT).Some? then ParseDecimal(Lookup(env, MEDIA_PORT).value, 0xFFFF) else None
  }

  /** The centre's key, a secret of 32 bytes, and the exported text, which does not show it. */
  ghost predicate ExportWhole(w: World, disk: Disk, directory: Text, serverKey: Text, r: Runtime, secret: Text) {
    && Says(disk, CenterKey, Trim(serverKey), 256) && w.decoded(Trim(serverKey)) == Some(32)
    && Says(disk, TelemetrySecret, secret, 128) && w.decodedUrl(secret) == Some(32)
    && CompatEnv in disk && disk[CompatEnv].content == Plain(Compatibility(directory, Trim(serverKey), r))
    && !Contains(disk[CompatEnv].content.text, secret)
  }

  ghost predicate Exports(w: World, disk: Disk, directory: Text, serverKey: Text, r: Runtime) {
    exists secret :: ExportWhole(w, disk, directory, serverKey, r, secret)
  }

  ghost predicate Placed(directory: Text, dataDir: Text) {
    && 0 < |directory| && directory[0] == '/' && 0 < |dataDir| && dataDir[0] == '/'
    && directory == Join(dataDir, "starry/enrollment")
  }

  ghost predicate Agreed(w: World, disk: Disk, env: Environment, directory: Text, serverKey: Text, now: nat,
                         i: Identity, r: Runtime)
  {
    && i.nodeId == r.nodeId && i.relayServer == r.relayServer && r.telemetrySecretFile
        == Join(directory, "telemetry.secret")
    && NodeProven(w, disk, i, now) && HostProven(w, disk, i) && Given(env, directory, r)
    && Exports(w, disk, directory, serverKey, r)
  }

  ghost predicate Sane(
    w: World, disk: Disk, env: Environment, directory: Text, dataDir: Text, serverKey: Text, now: nat) {
    && Placed(directory, dataDir) && AllKept(w, disk)
    && Marker in disk && RelayConfig in disk
    && disk[Marker].content.IdentityJson? && disk[RelayConfig].content.RuntimeJson?
    && MarkerWhole(w, disk[Marker].content.identity) && RuntimeWhole(w, disk[RelayConfig].content.runtime)
    && Agreed(w, disk, env, directory, serverKey, now, disk[Marker].content.identity, disk[RelayConfig].content.runtime)
  }

  lemma {:induction false} SaysRead(disk: Disk, n: Name, t: Text, maximum: nat)
    ensures Says(disk, n, t, maximum) <==> ReadTrimmed(disk, n, maximum) == Some(t)
  {
  }

  lemma {:induction false} SafeAreKept(w: World, disk: Disk)
    requires FilesSafe(w, disk)
    ensures AllKept(w, disk)
  {
    forall n | !IsPending(n) ensures Kept(w, disk, n) {
      match n
      case PendingKey =>
      case PendingRecord =>
      case _ => assert FileSafe(w, disk, n);
    }
  }

  lemma {:induction false} KeptFiles(w: World, disk: Disk)
    ensures FilesSafe(w, disk) <==> AllKept(w, disk)
  {
    if AllKept(w, disk) {
      assert Kept(w, disk, NodeId) && Kept(w, disk, NodeKey) && Kept(w, disk, NodeCert) && Kept(w, disk, RelayCa);
      assert Kept(w, disk, CenterKey) && Kept(w, disk, TelemetrySecret) && Kept(w, disk, RelayConfig);
      assert Kept(w, disk, CompatEnv) && Kept(w, disk, HostId) && Kept(w, disk, Marker);
    }
    if FilesSafe(w, disk) {
      SafeAreKept(w, disk);
    }
  }

  lemma {:induction false} ProfileExactly(w: World, r: Runtime)
    ensures ProfileFits(r.profile, r.wssEndpoint, r.fastMediaPort, w.endpointOk) <==> ProfileWhole(w, r)
  {
  }

  lemma {:induction false} FieldsExactly(w: World, i: Identity, r: Runtime)
    ensures FieldsAgree(w, i, r) <==>
      MarkerWhole(w, i) && RuntimeWhole(w, r) && i.nodeId == r.nodeId && i.relayServer == r.relayServer
  {
    ProfileExactly(w, r);
  }

  lemma {:induction false} CertifiesExactly(w: World, disk: Disk, n: Name, now: nat, fingerprint: Text)
    ensures CertificateKey(w, disk, n, now) == Some(fingerprint) <==>
      exists c :: Certifies(w, disk, n, now, c) && w.digest(c.publicKey) == fingerprint
    ensures CertificateKey(w, disk, n, now).Some? <==> exists c :: Certifies(w, disk, n, now, c)
  {
    if CertificateKey(w, disk, n, now).Some? {
      assert Certifies(w, disk, n, now, w.certificate(disk[n].content.text).value);
    }
  }

  lemma {:induction false} HostExactly(w: World)
    ensures HostBinding(w).Some? <==>
      && w.hostId.Some? && Size(w.hostId.value) <= 512
      && forall k :: 0 <= k < |w.hostId.value| ==> !IsControl(w.hostId.value[k])
    ensures HostBinding(w).Some? ==> HostBinding(w).value == w.digest(w.hostId.value)
  {
  }

  lemma {:induction false} IdentityExactly(w: World, disk: Disk, i: Identity, now: nat)
    ensures IdentityProblem(w, disk, i, now) == None <==> NodeProven(w, disk, i, now) && HostProven(w, disk, i)
  {
    SaysRead(disk, NodeId, i.nodeId, 128);
    CertifiesExactly(w, disk, NodeCert, now, i.keyFingerprint);
    CertifiesExactly(w, disk, RelayCa, now, i.keyFingerprint);
    HostExactly(w);
    if w.hostId.Some? { SaysRead(disk, HostId, w.digest(w.hostId.value), 128); }
  }

  lemma {:induction false} GivenExactly(env: Environment, directory: Text, r: Runtime)
    ensures EnvironmentAgrees(env, directory, r) <==>
      r.telemetrySecretFile == Join(directory, "telemetry.secret") && Given(env, directory, r)
  {
  }

  lemma {:induction false} ExportExactly(
    w: World, disk: Disk, env: Environment, directory: Text, serverKey: Text, r: Runtime)
    ensures ExportProblem(w, disk, env, directory, serverKey, r) == None <==>
      && r.telemetrySecretFile == Join(directory, "telemetry.secret") && Given(env, directory, r)
      && Exports(w, disk, directory, serverKey, r)
  {
    GivenExactly(env, directory, r);
    SaysRead(disk, CenterKey, Trim(serverKey), 256);
    forall secret ensures Says(disk, TelemetrySecret, secret, 128) <==>
      ReadTrimmed(disk, TelemetrySecret, 128) == Some(secret)
    {
      SaysRead(disk, TelemetrySecret, secret, 128);
    }
    if ExportProblem(w, disk, env, directory, serverKey, r) == None {
      assert ExportWhole(w, disk, directory, serverKey, r, ReadTrimmed(disk, TelemetrySecret, 128).value);
    }
  }

  lemma {:induction false} AgreedExactly(w: World, disk: Disk, env: Environment, directory: Text, serverKey: Text,
                                         now: nat, i: Identity, r: Runtime)
    ensures FieldsAgree(w, i, r) && IdentityProblem(w, disk, i, now) == None
            && ExportProblem(w, disk, env, directory, serverKey, r) == None <==>
      MarkerWhole(w, i) && RuntimeWhole(w, r) && Agreed(w, disk, env, directory, serverKey, now, i, r)
  {
    FieldsExactly(w, i, r);
    IdentityExactly(w, disk, i, now);
    ExportExactly(w, disk, env, directory, serverKey, r);
  }

  /** A relay with a directory named to it starts exactly when all of this holds. */
  lemma {:induction false} PreflightExactly(
    w: World, disk: Disk, env: Environment, directory: Text, dataDir: Text, serverKey: Text, now: nat)
    requires Lookup(env, ENROLLMENT_DIR) == Some(directory)
    ensures Preflight(w, disk, env, dataDir, serverKey, now) == None <==>
      Sane(w, disk, env, directory, dataDir, serverKey, now)
  {
    KeptFiles(w, disk);
    if Marker in disk && RelayConfig in disk && disk[Marker].content.IdentityJson?
       && disk[RelayConfig].content.RuntimeJson? {
      AgreedExactly(w, disk, env, directory, serverKey, now, disk[Marker].content.identity,
                    disk[RelayConfig].content.runtime);
    }
  }

  // A directory copied to another machine.

  /** The same world but for the machine. */
  ghost predicate OtherHost(w: World, w': World) {
    w' == w.(hostId := w'.hostId) && HostBinding(w') != HostBinding(w)
  }

  /** What one machine enrolled does not start on another, whatever the process is given. */
  lemma {:induction false} CloneRefused(
    w: World, w': World, directory: Text, code: Code, disk: Disk, enrolled: nat, key: Text, b: Bundle,
    env: Environment, dataDir: Text, serverKey: Text, now: nat)
    requires Installed(w, directory, code, disk, enrolled, key, b) && OtherHost(w, w')
    requires Lookup(env, ENROLLMENT_DIR).Some?
    ensures Preflight(w', disk, env, dataDir, serverKey, now) != None
  {
    InstalledFiles(w, directory, code, disk, enrolled, key, b);
    PreflightExactly(w', disk, env, Lookup(env, ENROLLMENT_DIR).value, dataDir, serverKey, now);
    HostExactly(w);
    HostExactly(w');
  }

  /** Before the host is looked at, the other machine sees nothing else. */
  lemma {:induction false} OtherwiseAlike(w: World, w': World, disk: Disk, i: Identity, r: Runtime, now: nat)
    requires OtherHost(w, w')
    ensures (FilesSafe(w', disk) <==> FilesSafe(w, disk)) && (FieldsAgree(w', i, r) <==> FieldsAgree(w, i, r))
    ensures IdentityHolds(w', disk, i, now) <==> IdentityHolds(w, disk, i, now)
  {
  }

  lemma {:induction false} CloneProblem(w: World, w': World, disk: Disk, i: Identity, now: nat)
    requires OtherHost(w, w') && IdentityProblem(w, disk, i, now) == None
    requires IdentityHolds(w', disk, i, now) <==> IdentityHolds(w, disk, i, now)
    ensures IdentityProblem(w', disk, i, now) == Some("relay_enrollment_host_clone_detected")
  {
  }

  /** And where the first machine would start, the other says why it does not. */
  lemma {:induction false} CloneDetected(
    w: World, w': World, disk: Disk, env: Environment, dataDir: Text, serverKey: Text, now: nat)
    requires Lookup(env, ENROLLMENT_DIR).Some? && Preflight(w, disk, env, dataDir, serverKey, now) == None
    requires OtherHost(w, w')
    ensures Preflight(w', disk, env, dataDir, serverKey, now) == Some("relay_enrollment_host_clone_detected")
  {
    var i, r := disk[Marker].content.identity, disk[RelayConfig].content.runtime;
    OtherwiseAlike(w, w', disk, i, r, now);
    CloneProblem(w, w', disk, i, now);
  }

  // A directory with one file altered.

  /** The configurations the rest of the directory and the process cannot tell from the one they were made for. */
  ghost predicate SameSettings(w: World, r: Runtime, r': Runtime) {
    && RuntimeWhole(w, r')
    && r' == r.(relayPool := r'.relayPool, profile := r'.profile, wssEndpoint := r'.wssEndpoint,
                activateAfterHealth := r'.activateAfterHealth)
  }

  ghost predicate SameNode(w: World, i: Identity, i': Identity) {
    && MarkerWhole(w, i')
    && i' == i.(enrollmentId := i'.enrollmentId, configurationDigest := i'.configurationDigest,
                generation := i'.generation)
  }

  /** What one file of a directory may be replaced by without anything being noticed. */
  ghost predicate Tolerated(w: World, disk: Disk, now: nat, n: Name, content: Content)
    requires Marker in disk && disk[Marker].content.IdentityJson?
    requires RelayConfig in disk && disk[RelayConfig].content.RuntimeJson?
    requires NodeCert in disk && RelayCa in disk && CenterKey in disk && CompatEnv in disk
  {
    var i := disk[Marker].content.identity;
    match n
    case PendingRecord => true
    case PendingKey => true
    case NodeId => content.Plain? && Trim(content.text) == i.nodeId
    case NodeKey =>
      && content.Plain? && w.publicKey(content.text).Some?
      && w.digest(w.publicKey(content.text).value) == i.keyFingerprint
    case NodeCert =>
      && content.Plain? && w.certificate(content.text).Some? && now < w.certificate(content.text).value.notAfter
      && w.digest(w.certificate(content.text).value.publicKey) == i.keyFingerprint
      && disk[RelayCa].content.Plain? && w.chained(content.text, disk[RelayCa].content.text)
    case RelayCa =>
      && content.Plain? && w.certificate(content.text).Some? && now < w.certificate(content.text).value.notAfter
      && disk[NodeCert].content.Plain? && w.chained(disk[NodeCert].content.text, content.text)
    case CenterKey => content.Plain? && disk[CenterKey].content.Plain?
                      && Trim(content.text) == Trim(disk[CenterKey].content.text)
    case TelemetrySecret =>
      && content.Plain? && w.decodedUrl(Trim(content.text)) == Some(32) && 0 < |Trim(content.text)|
      && Size(Trim(content.text)) <= 128 && !HasControl(Trim(content.text))
      && disk[CompatEnv].content.Plain? && !Contains(disk[CompatEnv].content.text, Trim(content.text))
    case HostId => content.Plain? && Trim(content.text) == i.hostBinding
    case RelayConfig => content.RuntimeJson? && SameSettings(w, disk[RelayConfig].content.runtime, content.runtime)
    case CompatEnv => content == disk[CompatEnv].content
    case Marker => content.IdentityJson? && SameNode(w, i, content.identity)
  }

  lemma {:induction false} KeptAfter(w: World, disk: Disk, n: Name, file: File)
    requires AllKept(w, disk)
    ensures AllKept(w, disk[n := file]) <==> IsPending(n) || Kept(w, disk[n := file], n)
  {
    forall m | !IsPending(m) && m != n ensures Kept(w, disk[n := file], m) {
      assert Kept(w, disk, m);
    }
  }

  lemma {:induction false} NodeDrift(w: World, disk: Disk, now: nat, i: Identity, r: Runtime, n: Name, file: File)
    requires NodeProven(w, disk, i, now) && Marker in disk && disk[Marker].content == IdentityJson(i)
    requires RelayConfig in disk && disk[RelayConfig].content.RuntimeJson? && CenterKey in disk && CompatEnv in disk
    ensures NodeProven(w, disk[n := file], i, now) <==>
      (n in {NodeId, NodeKey, NodeCert, RelayCa} ==> Tolerated(w, disk, now, n, file.content))
  {
    var disk' := disk[n := file];
    CertifiesExactly(w, disk, NodeCert, now, i.keyFingerprint);
    CertifiesExactly(w, disk', NodeCert, now, i.keyFingerprint);
    CertifiesExactly(w, disk, RelayCa, now, i.keyFingerprint);
    CertifiesExactly(w, disk', RelayCa, now, i.keyFingerprint);
  }

  lemma {:induction false} HostDrift(w: World, disk: Disk, now: nat, i: Identity, n: Name, file: File)
    requires HostProven(w, disk, i) && Marker in disk && disk[Marker].content == IdentityJson(i)
    requires RelayConfig in disk && disk[RelayConfig].content.RuntimeJson?
    requires NodeCert in disk && RelayCa in disk && CenterKey in disk && CompatEnv in disk
    ensures HostProven(w, disk[n := file], i) <==> (n == HostId ==> Tolerated(w, disk, now, n, file.content))
  {
  }

  lemma {:induction false} ExportDrift(
    w: World, disk: Disk, now: nat, directory: Text, serverKey: Text, r: Runtime, secret: Text, n: Name, file: File)
    requires ExportWhole(w, disk, directory, serverKey, r, secret)
    requires Marker in disk && disk[Marker].content.IdentityJson?
    requires RelayConfig in disk && disk[RelayConfig].content.RuntimeJson? && NodeCert in disk && RelayCa in disk
    ensures Exports(w, disk[n := file], directory, serverKey, r) <==>
      (n in {CenterKey, TelemetrySecret, CompatEnv} ==> Tolerated(w, disk, now, n, file.content))
  {
    var disk' := disk[n := file];
    if n in {CenterKey, TelemetrySecret, CompatEnv} ==> Tolerated(w, disk, now, n, file.content) {
      var secret' := if n == TelemetrySecret then Trim(file.content.text) else secret;
      assert ExportWhole(w, disk', directory, serverKey, r, secret');
    }
  }

  lemma {:induction false} SettingsDrift(env: Environment, directory: Text, key: Text, r: Runtime, r': Runtime)
    requires Given(env, directory, r)
    ensures Given(env, directory, r') <==>
      && r'.publicEndpoint == r.publicEndpoint && r'.maxSessions == r.maxSessions
      && r'.capacityBandwidth == r.capacityBandwidth && r'.draining == r.draining && r'.fastMediaPort == r.fastMediaPort
    ensures Given(env, directory, r') ==> Compatibility(directory, key, r') == Compatibility(directory, key, r)
  {
    if Given(env, directory, r') {
      assert Exported(directory, key, r') == Exported(directory, key, r);
    }
  }

  /** Files other than the two JSON ones. */
  lemma {:induction false} PlainDrift(
    w: World, disk: Disk, env: Environment, directory: Text, serverKey: Text, now: nat, i: Identity, r: Runtime,
    n: Name, file: File)
    requires Marker in disk && disk[Marker].content == IdentityJson(i) && n != Marker
    requires RelayConfig in disk && disk[RelayConfig].content == RuntimeJson(r) && n != RelayConfig
    requires Agreed(w, disk, env, directory, serverKey, now, i, r)
    ensures NodeCert in disk && RelayCa in disk && CenterKey in disk && CompatEnv in disk
    ensures Agreed(w, disk[n := file], env, directory, serverKey, now, i, r) <==>
      Tolerated(w, disk, now, n, file.content)
  {
    var secret :| ExportWhole(w, disk, directory, serverKey, r, secret);
    NodeDrift(w, disk, now, i, r, n, file);
    HostDrift(w, disk, now, i, n, file);
    ExportDrift(w, disk, now, directory, serverKey, r, secret, n, file);
  }

  /** What proves the node and the host is in none of the two JSON files. */
  lemma {:induction false} ProvenSame(w: World, disk: Disk, disk': Disk, i: Identity, i': Identity, now: nat)
    requires NodeProven(w, disk, i, now) && HostProven(w, disk, i)
    requires forall n :: n in {NodeId, NodeKey, NodeCert, RelayCa, HostId} && n in disk ==>
        n in disk' && disk'[n] == disk[n]
    ensures NodeProven(w, disk', i', now) && HostProven(w, disk', i') <==>
      i'.nodeId == i.nodeId && i'.keyFingerprint == i.keyFingerprint && i'.hostBinding == i.hostBinding
  {
    CertifiesExactly(w, disk, NodeCert, now, i.keyFingerprint);
    CertifiesExactly(w, disk', NodeCert, now, i'.keyFingerprint);
    CertifiesExactly(w, disk, RelayCa, now, i.keyFingerprint);
    CertifiesExactly(w, disk', RelayCa, now, i'.keyFingerprint);
  }

  lemma {:induction false} ConfigDrift(
    w: World, disk: Disk, env: Environment, directory: Text, serverKey: Text, now: nat, i: Identity, r: Runtime,
    r': Runtime, file: File)
    requires Agreed(w, disk, env, directory, serverKey, now, i, r) && RuntimeWhole(w, r)
    requires file.content == RuntimeJson(r')
    ensures RuntimeWhole(w, r') && Agreed(w, disk[RelayConfig := file], env, directory, serverKey, now, i, r') <==>
      SameSettings(w, r, r')
  {
    var disk' := disk[RelayConfig := file];
    var secret :| ExportWhole(w, disk, directory, serverKey, r, secret);
    SettingsDrift(env, directory, Trim(serverKey), r, r');
    ProvenSame(w, disk, disk', i, i, now);
    if SameSettings(w, r, r') {
      assert ExportWhole(w, disk', directory, serverKey, r', secret);
    }
  }

  lemma {:induction false} MarkerDrift(
    w: World, disk: Disk, env: Environment, directory: Text, serverKey: Text, now: nat, i: Identity, r: Runtime,
    i': Identity, file: File)
    requires Agreed(w, disk, env, directory, serverKey, now, i, r) && MarkerWhole(w, i)
    requires file.content == IdentityJson(i')
    ensures MarkerWhole(w, i') && Agreed(w, disk[Marker := file], env, directory, serverKey, now, i', r) <==>
      SameNode(w, i, i')
  {
    var disk' := disk[Marker := file];
    var secret :| ExportWhole(w, disk, directory, serverKey, r, secret);
    assert ExportWhole(w, disk', directory, serverKey, r, secret);
    ProvenSame(w, disk, disk', i, i', now);
  }

  ghost predicate DriftTolerated(w: World, disk: Disk, now: nat, n: Name, file: File) {
    && Marker in disk && disk[Marker].content.IdentityJson?
    && RelayConfig in disk && disk[RelayConfig].content.RuntimeJson?
    && NodeCert in disk && RelayCa in disk && CenterKey in disk && CompatEnv in disk
    && (IsPending(n) || Kept(w, disk[n := file], n)) && Tolerated(w, disk, now, n, file.content)
  }

  lemma {:induction false} SaneJsonDrift(
    w: World, disk: Disk, env: Environment, directory: Text, dataDir: Text, serverKey: Text, now: nat, n: Name,
    file: File)
    requires Sane(w, disk, env, directory, dataDir, serverKey, now) && (n == Marker || n == RelayConfig)
    ensures Sane(w, disk[n := file], env, directory, dataDir, serverKey, now) <==> DriftTolerated(w, disk, now, n, file)
  {
    var i, r := disk[Marker].content.identity, disk[RelayConfig].content.runtime;
    KeptAfter(w, disk, n, file);
    if n == Marker && file.content.IdentityJson? {
      MarkerDrift(w, disk, env, directory, serverKey, now, i, r, file.content.identity, file);
    } else if n == RelayConfig && file.content.RuntimeJson? {
      ConfigDrift(w, disk, env, directory, serverKey, now, i, r, file.content.runtime, file);
    }
  }

  lemma {:induction false} SanePlainDrift(
    w: World, disk: Disk, env: Environment, directory: Text, dataDir: Text, serverKey: Text, now: nat, n: Name,
    file: File)
    requires Sane(w, disk, env, directory, dataDir, serverKey, now) && n != Marker && n != RelayConfig
    ensures Sane(w, disk[n := file], env, directory, dataDir, serverKey, now) <==> DriftTolerated(w, disk, now, n, file)
  {
    var i, r := disk[Marker].content.identity, disk[RelayConfig].content.runtime;
    KeptAfter(w, disk, n, file);
    PlainDrift(w, disk, env, directory, serverKey, now, i, r, n, file);
  }

  /**
   A relay that starts on a directory refuses to once one of its files is replaced, except exactly by
   one that is as well kept and says the same of what is compared.
   */
  lemma {:induction false} FileDriftRefused(
    w: World, disk: Disk, env: Environment, dataDir: Text, serverKey: Text, now: nat, n: Name, file: File)
    requires Lookup(env, ENROLLMENT_DIR).Some? && Preflight(w, disk, env, dataDir, serverKey, now) == None
    ensures Preflight(w, disk[n := file], env, dataDir, serverKey, now) == None <==>
      DriftTolerated(w, disk, now, n, file)
  {
    var directory := Lookup(env, ENROLLMENT_DIR).value;
    PreflightExactly(w, disk, env, directory, dataDir, serverKey, now);
    PreflightExactly(w, disk[n := file], env, directory, dataDir, serverKey, now);
    if n == Marker || n == RelayConfig {
      SaneJsonDrift(w, disk, env, directory, dataDir, serverKey, now, n, file);
    } else {
      SanePlainDrift(w, disk, env, directory, dataDir, serverKey, now, n, file);
    }
  }

  /** A missing file is never overlooked. */
  lemma {:induction false} MissingFileRefused(
    w: World, disk: Disk, env: Environment, dataDir: Text, serverKey: Text, now: nat, n: Name)
    requires Lookup(env, ENROLLMENT_DIR).Some? && !IsPending(n) && n !in disk
    ensures Preflight(w, disk, env, dataDir, serverKey, now) != None
  {
    PreflightExactly(w, disk, env, Lookup(env, ENROLLMENT_DIR).value, dataDir, serverKey, now);
    assert !Kept(w, disk, n);
  }

  // A process given something else.

  /** The two environments say the same of what the relay looks at. */
  ghost predicate SameGiven(env: Environment, env': Environment) {
    && Lookup(env', SECRET_FILE) == Lookup(env, SECRET_FILE) && Lookup(env', DRAINING) == Lookup(env, DRAINING)
    && Number(Lookup(env', MAX_SESSIONS), 0xFFFF_FFFF) == Number(Lookup(env, MAX_SESSIONS), 0xFFFF_FFFF)
    && Number(Lookup(env', CAPACITY), 0xFFFF_FFFF_FFFF_FFFF) == Number(Lookup(env, CAPACITY), 0xFFFF_FFFF_FFFF_FFFF)
    && Number(Lookup(env', MEDIA_PORT), 0xFFFF) == Number(Lookup(env, MEDIA_PORT), 0xFFFF)
    && Lookup(env', PUBLIC_ENDPOINT).Some? && Lookup(env, PUBLIC_ENDPOINT).Some?
    && Trim(Lookup(env', PUBLIC_ENDPOINT).value) == Trim(Lookup(env, PUBLIC_ENDPOINT).value)
  }

  lemma {:induction false} GivenDrift(env: Environment, env': Environment, directory: Text, r: Runtime)
    requires Given(env, directory, r)
    ensures Given(env', directory, r) <==> SameGiven(env, env')
  {
  }

  lemma {:induction false} AgreedDrift(
    w: World, disk: Disk, env: Environment, env': Environment, directory: Text, key: Text, key': Text, now: nat,
    i: Identity, r: Runtime)
    requires Agreed(w, disk, env, directory, key, now, i, r)
    ensures Agreed(w, disk, env', directory, key', now, i, r) <==> SameGiven(env, env') && Trim(key') == Trim(key)
  {
    GivenDrift(env, env', directory, r);
    var secret :| ExportWhole(w, disk, directory, key, r, secret);
    if Trim(key') == Trim(key) { assert ExportWhole(w, disk, directory, key', r, secret); }
  }

  /**
   Given the same directory, it refuses every environment and server key but those that say the same of
   what is compared; given a directory elsewhere it refuses them all.
   */
  lemma {:induction false} EnvironmentDriftRefused(
    w: World, disk: Disk, env: Environment, env': Environment, dataDir: Text, key: Text, key': Text, now: nat)
    requires Lookup(env, ENROLLMENT_DIR).Some? && Preflight(w, disk, env, dataDir, key, now) == None
    requires Lookup(env', ENROLLMENT_DIR).Some?
    ensures Preflight(w, disk, env', dataDir, key', now) == None <==>
      && Lookup(env', ENROLLMENT_DIR) == Lookup(env, ENROLLMENT_DIR)
      && SameGiven(env, env') && Trim(key') == Trim(key)
  {
    var directory, directory' := Lookup(env, ENROLLMENT_DIR).value, Lookup(env', ENROLLMENT_DIR).value;
    PreflightExactly(w, disk, env, directory, dataDir, key, now);
    PreflightExactly(w, disk, env', directory', dataDir, key', now);
    var i, r := disk[Marker].content.identity, disk[RelayConfig].content.runtime;
    AgreedDrift(w, disk, env, env', directory, key, key', now, i, r);
  }
}
