/** The check the relay makes of its enrollment directory before it opens a listener. */
module EnrollmentPreflight {
  import opened Basics
  import opened Texts
  import opened EnrollmentModel

  type Environment = seq<Variable>

  function Lookup(env: Environment, name: Text): Option<Text> {
    if env == [] then None else if env[0].name == name then Some(env[0].value) else Lookup(env[1..], name)
  }

  // Reading an environment file, one NAME=VALUE line at a time.

  function Upto(s: Text, c: char): Text {
    if s == "" || s[0] == c then "" else [s[0]] + Upto(s[1..], c)
  }

  function AfterFirst(s: Text, c: char): (r: Text)
    ensures |r| < |s| || s == ""
  {
    if s == "" then "" else if s[0] == c then s[1..] else AfterFirst(s[1..], c)
  }

  function Loaded(text: Text): Environment
    decreases |text|
  {
    if text == "" then []
    else
      var line := Upto(text, '\n');
      [Variable(Upto(line, '='), AfterFirst(line, '='))] + Loaded(AfterFirst(text, '\n'))
  }

  predicate Lacks(s: Text, c: char) {
    forall i :: 0 <= i < |s| ==> s[i] != c
  }

  lemma {:induction false} SplitAt(a: Text, c: char, rest: Text)
    requires Lacks(a, c)
    ensures Upto(a + [c] + rest, c) == a && AfterFirst(a + [c] + rest, c) == rest
  {
    if a != "" {
      assert (a + [c] + rest)[1..] == a[1..] + [c] + rest;
      SplitAt(a[1..], c, rest);
    }
  }

  /** Exporting variables and loading the file gives the variables back. */
  lemma {:induction false} LoadedLines(vars: seq<Variable>)
    requires forall k :: 0 <= k < |vars| ==>
        Lacks(vars[k].name, '=') && Lacks(vars[k].name, '\n') && Lacks(vars[k].value, '\n')
    ensures Loaded(Lines(vars)) == vars
  {
    if vars != [] {
      var v := vars[0];
      var line := v.name + "=" + v.value;
      assert Lines(vars) == line + "\n" + Lines(vars[1..]);
      SplitAt(line, '\n', Lines(vars[1..]));
      SplitAt(v.name, '=', v.value);
      assert forall k :: 0 <= k < |vars[1..]| ==> vars[1..][k] == vars[k + 1];
      LoadedLines(vars[1..]);
    }
  }

  // The check.

  function Absolute(path: Text): bool {
    path != "" && path[0] == '/'
  }

  /** A line of text read for its trimmed value. */
  function ReadTrimmed(disk: Disk, name: Name, maximum: nat): Option<Text> {
    if name !in disk || !disk[name].content.Plain? then None
    else
      var value := Trim(disk[name].content.text);
      if value == "" || Size(value) > maximum || HasControl(value) then None else Some(value)
  }

  /** Not writable by group or others. */
  predicate WriteProtected(mode: nat) {
    mode / 16 % 2 == 0 && mode / 2 % 2 == 0
  }

  const MAX_STATE_FILE := 64 * 1024

  predicate Fits(size: nat) {
    0 < size <= MAX_STATE_FILE
  }

  predicate FileSafe(w: World, disk: Disk, n: Name) {
    n in disk && WriteProtected(disk[n].mode) && Fits(FileSize(w, disk[n]))
  }

  predicate FilesSafe(w: World, disk: Disk) {
    && FileSafe(w, disk, NodeId) && FileSafe(w, disk, NodeKey) && FileSafe(w, disk, NodeCert)
    && FileSafe(w, disk, RelayCa) && FileSafe(w, disk, CenterKey) && FileSafe(w, disk, TelemetrySecret)
    && FileSafe(w, disk, RelayConfig) && FileSafe(w, disk, CompatEnv) && FileSafe(w, disk, HostId)
    && FileSafe(w, disk, Marker) && OwnerOnly(disk[NodeKey].mode) && OwnerOnly(disk[TelemetrySecret].mode)
  }

  predicate FieldsAgree(w: World, i: Identity, r: Runtime) {
    && i.version == 1 && i.purpose == "relay" && w.isUuid(i.enrollmentId) && ValidDigest(i.configurationDigest)
    && r.version == 1 && i.generation != 0 && i.nodeId != "" && Size(i.nodeId) <= 128 && i.nodeId == r.nodeId
    && i.relayServer == r.relayServer
    && r.publicEndpoint == r.relayServer && 0 < r.maxSessions <= 1_000_000 && 0 < r.capacityBandwidth
    && r.relayPool != "" && Size(r.relayPool) <= 128
    && ProfileFits(r.profile, r.wssEndpoint, r.fastMediaPort, w.endpointOk)
    && |i.keyFingerprint| == 71 && i.keyFingerprint[..7] == "sha256:"
  }

  function CertificateKey(w: World, disk: Disk, name: Name, now: nat): Option<Text> {
    if name !in disk || !disk[name].content.Plain? || w.certificate(disk[name].content.text).None? then None
    else
      var c := w.certificate(disk[name].content.text).value;
      if c.notAfter <= now then None else Some(w.digest(c.publicKey))
  }

  predicate IdentityHolds(w: World, disk: Disk, i: Identity, now: nat) {
    && KeyIn(w, disk, NodeKey) == Some(i.keyFingerprint)
    && CertificateKey(w, disk, NodeCert, now) == Some(i.keyFingerprint) && CertificateKey(w, disk, RelayCa, now).Some?
    && w.chained(disk[NodeCert].content.text, disk[RelayCa].content.text)
  }

  predicate EnvironmentAgrees(env: Environment, directory: Text, r: Runtime) {
    && r.telemetrySecretFile == Join(directory, "telemetry.secret")
    && Lookup(env, SECRET_FILE) == Some(r.telemetrySecretFile)
    && Lookup(env, PUBLIC_ENDPOINT).Some?
    && Trim(Lookup(env, PUBLIC_ENDPOINT).value) == r.publicEndpoint
    && Number(Lookup(env, MAX_SESSIONS), 0xFFFF_FFFF) == Some(r.maxSessions)
    && Number(Lookup(env, CAPACITY), U64_MAX) == Some(r.capacityBandwidth)
    && Lookup(env, DRAINING) == Some(Flag(r.draining))
    && Number(Lookup(env, MEDIA_PORT), 0xFFFF) == r.fastMediaPort
  }

  function Number(value: Option<Text>, limit: nat): Option<nat> {
    if value.Some? then ParseDecimal(value.value, limit) else None
  }

  /** What is wrong with the node's, and the host's, identity. */
  function IdentityProblem(w: World, disk: Disk, i: Identity, now: nat): Option<Text> {
    if ReadTrimmed(disk, NodeId, 128) != Some(i.nodeId) then Some("relay_enrollment_node_mismatch")
    else if !IdentityHolds(w, disk, i, now) then Some("relay_enrollment_node_key_mismatch")
    else if HostBinding(w).None? || ReadTrimmed(disk, HostId, 128) != HostBinding(w)
            || Some(i.hostBinding) != HostBinding(w)
    then Some("relay_enrollment_host_clone_detected")
    else None
  }

  /** What is wrong with the keys, the environment or the exported text. */
  function ExportProblem(w: World, disk: Disk, env: Environment, directory: Text, serverKey: Text, r: Runtime)
    : Option<Text>
  {
    var key, secret := ReadTrimmed(disk, CenterKey, 256), ReadTrimmed(disk, TelemetrySecret, 128);
    if key.None? || key.value != Trim(serverKey) || w.decoded(key.value) != Some(32)
    then Some("relay_enrollment_center_key_mismatch")
    else if secret.None? || w.decodedUrl(secret.value) != Some(32)
    then Some("relay_enrollment_telemetry_secret_invalid")
    else if !EnvironmentAgrees(env, directory, r) then Some("relay_enrollment_env_drift")
    else if CompatEnv !in disk || disk[CompatEnv].content != Plain(Compatibility(directory, key.value, r))
            || Contains(disk[CompatEnv].content.text, secret.value)
    then Some("relay_enrollment_compat_drift")
    else None
  }

  /** The start-up check; None when the relay may start, otherwise why not. */
  function Preflight(w: World, disk: Disk, env: Environment, dataDir: Text, serverKey: Text, now: nat): Option<Text> {
    var directory := Lookup(env, ENROLLMENT_DIR);
    if directory.None? then None
    else if !Absolute(directory.value) then Some("relay_enrollment_path_not_absolute")
    else if !Absolute(dataDir) || directory.value != Join(dataDir, "starry/enrollment")
    then Some("relay_enrollment_outside_relay_data_dir")
    else if !FilesSafe(w, disk) then Some("relay_enrollment_file_permissions")
    else if !disk[Marker].content.IdentityJson? || !disk[RelayConfig].content.RuntimeJson?
    then Some("relay_enrollment_json_invalid")
    else
      var i, r := disk[Marker].content.identity, disk[RelayConfig].content.runtime;
      if !FieldsAgree(w, i, r) then Some("relay_enrollment_marker_invalid")
      else
        var identity := IdentityProblem(w, disk, i, now);
        if identity.Some? then identity else ExportProblem(w, disk, env, directory.value, serverKey, r)
  }

  // What the finished directory gives.

  predicate IsBase64(c: char) {
    'a' <= c <= 'z' || 'A' <= c <= 'Z' || '0' <= c <= '9' || c == '+' || c == '/' || c == '-' || c == '_' || c == '='
  }

  predicate Base64Text(t: Text) {
    0 < |t| <= 44 && forall i :: 0 <= i < |t| ==> IsBase64(t[i])
  }

  /**
   Digests have their form, serialized JSON is not empty, and what decodes to 32 bytes is at
   most 44 characters of the base64 alphabets.
   */
  ghost predicate WorldSound(w: World) {
    && (forall t: Text :: ValidDigest(w.digest(t)))
    && (forall c: Content :: w.jsonSize(c) > 0)
    && (forall t: Text :: w.decoded(t) == Some(32) ==> Base64Text(t))
    && (forall t: Text :: w.decodedUrl(t) == Some(32) ==> Base64Text(t))
  }

  /** Printable with no blank: survives being written as a line and read back. */
  predicate Solid(t: Text) {
    0 < |t| && forall i :: 0 <= i < |t| ==> '!' <= t[i] <= '~'
  }

  lemma {:induction false} SolidReads(t: Text)
    requires Solid(t)
    ensures Trim(t + "\n") == t && Trim(t) == t && !HasControl(t) && Lacks(t, '\n')
  {
    TrimLine(t);
  }

  lemma {:induction false} SolidSize(t: Text)
    requires Solid(t)
    ensures Size(t) == |t| && Size(t + "\n") == |t| + 1
  {
    AsciiSize(t);
    SizeAppend(t, '\n');
  }

  lemma {:induction false} DigestSolid(t: Text)
    requires ValidDigest(t)
    ensures Solid(t)
  {
    assert forall i :: 0 <= i < 7 ==> t[i] == t[..7][i];
    assert t[..7] == "sha256:";
  }

  lemma {:induction false} ReadsBack(disk: Disk, name: Name, t: Text, mode: nat, maximum: nat)
    requires name in disk && disk[name] == File(Plain(t + "\n"), mode) && t != "" && Size(t) <= maximum
    ensures ReadTrimmed(disk, name, maximum) == Some(t) <==> Tidy(t) && !HasControl(t)
    ensures Solid(t) ==> ReadTrimmed(disk, name, maximum) == Some(t)
  {
    TrimLine(t);
    if Solid(t) {
      SolidReads(t);
    }
  }

  // The exported variables survive the trip through the file.

  predicate IsNameChar(c: char) {
    'A' <= c <= 'Z' || c == '_'
  }

  predicate IsName(s: Text) {
    forall i :: 0 <= i < |s| ==> IsNameChar(s[i])
  }

  lemma {:induction false} ShortNames()
    ensures IsName(SERVER_KEY) && IsName(PUBLIC_ENDPOINT) && IsName(MAX_SESSIONS) && IsName(DRAINING)
  {
  }

  lemma {:induction false} LongNames()
    ensures IsName(SECRET_FILE) && IsName(ENROLLMENT_DIR)
  {
  }

  lemma {:induction false} LongestNames()
    ensures IsName(CAPACITY) && IsName(MEDIA_PORT)
  {
  }

  lemma {:induction false} NameLengths()
    ensures |SERVER_KEY| == 3 && |SECRET_FILE| == 34 && |PUBLIC_ENDPOINT| == 28 && |MAX_SESSIONS| == 25
    ensures |CAPACITY| == 35 && |DRAINING| == 21 && |ENROLLMENT_DIR| == 27 && |MEDIA_PORT| == 32
  {
  }

  lemma {:induction false} NameLacks(s: Text)
    requires IsName(s)
    ensures Lacks(s, '=') && Lacks(s, '\n')
  {
  }

  lemma {:induction false} DecimalLacks(n: nat)
    ensures Lacks(Decimal(n), '\n')
  {
    DecimalDigits(n);
  }

  lemma {:induction false} LookupAt(env: Environment, k: nat)
    requires k < |env| && forall j :: 0 <= j < k ==> |env[j].name| != |env[k].name|
    ensures Lookup(env, env[k].name) == Some(env[k].value)
  {
    if k > 0 {
      assert env[1..][k - 1] == env[k];
      assert forall j :: 0 <= j < k - 1 ==> env[1..][j] == env[j + 1];
      LookupAt(env[1..], k - 1);
    }
  }

  lemma {:induction false} LookupMissing(env: Environment, name: Text)
    requires forall j :: 0 <= j < |env| ==> |env[j].name| != |name|
    ensures Lookup(env, name) == None
  {
    if env != [] {
      assert forall j :: 0 <= j < |env[1..]| ==> env[1..][j] == env[j + 1];
      LookupMissing(env[1..], name);
    }
  }

  lemma {:induction false} ExportedNames(directory: Text, key: Text, r: Runtime)
    ensures var vars := Exported(directory, key, r);
      forall k :: 0 <= k < |vars| ==> Lacks(vars[k].name, '=') && Lacks(vars[k].name, '\n')
  {
    ShortNames();
    LongNames();
    LongestNames();
    var vars := Exported(directory, key, r);
    forall k | 0 <= k < |vars|
      ensures Lacks(vars[k].name, '=') && Lacks(vars[k].name, '\n')
    {
      NameLacks(vars[k].name);
    }
  }

  lemma {:induction false} ExportedLoads(directory: Text, key: Text, r: Runtime)
    requires Lacks(directory, '\n') && Lacks(key, '\n') && Lacks(r.publicEndpoint, '\n')
    ensures Loaded(Compatibility(directory, key, r)) == Exported(directory, key, r)
  {
    ExportedNames(directory, key, r);
    DecimalLacks(r.maxSessions);
    DecimalLacks(r.capacityBandwidth);
    if r.fastMediaPort.Some? {
      DecimalLacks(r.fastMediaPort.value);
    }
    assert Lacks("telemetry.secret", '\n');
    assert Lacks(Join(directory, "telemetry.secret"), '\n');
    LoadedLines(Exported(directory, key, r));
  }

  lemma {:induction false} ExportedFound(directory: Text, key: Text, r: Runtime)
    ensures var env := Exported(directory, key, r);
      && Lookup(env, SERVER_KEY) == Some(key) && Lookup(env, SECRET_FILE) == Some(Join(directory, "telemetry.secret"))
      && Lookup(env, PUBLIC_ENDPOINT) == Some(r.publicEndpoint)
      && Lookup(env, MAX_SESSIONS) == Some(Decimal(r.maxSessions))
      && Lookup(env, CAPACITY) == Some(Decimal(r.capacityBandwidth))
      && Lookup(env, DRAINING) == Some(Flag(r.draining)) && Lookup(env, ENROLLMENT_DIR) == Some(directory)
      && Lookup(env, MEDIA_PORT) == if r.fastMediaPort.Some? then Some(Decimal(r.fastMediaPort.value)) else None
  {
    NameLengths();
    var env := Exported(directory, key, r);
    for k := 0 to 7
      invariant forall j :: 0 <= j < k ==> Lookup(env, env[j].name) == Some(env[j].value)
    {
      LookupAt(env, k);
    }
    assert env[0] == Variable(SERVER_KEY, key) && env[1] == Variable(SECRET_FILE, Join(directory, "telemetry.secret"));
    assert env[2] == Variable(PUBLIC_ENDPOINT, r.publicEndpoint);
    assert env[3] == Variable(MAX_SESSIONS, Decimal(r.maxSessions));
    assert env[4] == Variable(CAPACITY, Decimal(r.capacityBandwidth));
    assert env[5] == Variable(DRAINING, Flag(r.draining)) && env[6] == Variable(ENROLLMENT_DIR, directory);
    if r.fastMediaPort.Some? {
      LookupAt(env, 7);
    } else {
      LookupMissing(env, MEDIA_PORT);
    }
  }

  lemma {:induction false} ExportedAgrees(directory: Text, key: Text, b: Bundle)
    requires Solid(b.publicEndpoint)
    ensures EnvironmentAgrees(Exported(directory, key, RuntimeFor(directory, b)), directory, RuntimeFor(directory, b))
  {
    var r := RuntimeFor(directory, b);
    ExportedFound(directory, key, r);
    SolidReads(b.publicEndpoint);
    ParseDecimalOf(r.maxSessions, 0xFFFF_FFFF);
    ParseDecimalOf(r.capacityBandwidth, U64_MAX);
    if r.fastMediaPort.Some? {
      ParseDecimalOf(r.fastMediaPort.value, 0xFFFF);
    }
  }
}
