/**
 First-time relay enrollment. The enrollment directory is a map from file names to files;
 one atomic install or removal is one step, and an attempt may lose power before any of them.
 */
module EnrollmentModel {
  import opened Basics
  import opened Texts

  const U64_MAX := 0xFFFF_FFFF_FFFF_FFFF
  type U16 = n: nat | n < 0x1_0000
  type U32 = n: nat | n < 0x1_0000_0000
  type U64 = n: nat | n <= U64_MAX

  /** Unix modes 0600 and 0640. */
  const PRIVATE := 0x180
  const SHARED := 0x1A0

  const MAX_PRIVATE_INPUT := 1024 * 1024

  datatype Name =
    | NodeId | NodeKey | NodeCert | RelayCa | CenterKey | TelemetrySecret | HostId | RelayConfig | CompatEnv | Marker
    | PendingRecord | PendingKey

  datatype PendingIdentity = PendingIdentity(
    version: nat, purpose: Text, action: Text, enrollmentId: Text, configurationDigest: Text, requestDigest: Text,
    keyFingerprint: Text, csrDigest: Text, instanceId: Option<Text>)

  datatype Identity = Identity(
    version: nat, purpose: Text, enrollmentId: Text, configurationDigest: Text, nodeId: Text, relayServer: Text,
    keyFingerprint: Text, hostBinding: Text, generation: nat)

  datatype Runtime = Runtime(
    version: nat, nodeId: Text, relayServer: Text, publicEndpoint: Text, telemetrySecretFile: Text, maxSessions: U32,
    capacityBandwidth: U64, draining: bool, relayPool: Text, profile: Text, wssEndpoint: Option<Text>,
    activateAfterHealth: bool, fastMediaPort: Option<U16>)

  /** A JSON file stands for the value it holds. */
  datatype Content =
    | Plain(text: Text)
    | PendingJson(pending: PendingIdentity)
    | IdentityJson(identity: Identity)
    | RuntimeJson(runtime: Runtime)

  datatype File = File(content: Content, mode: nat)

  type Disk = map<Name, File>

  datatype Code = Code(enrollmentId: Text, configurationDigest: Text, secret: Text, expiresAt: nat)

  datatype Claim = Claim(
    version: nat, purpose: Text, action: Text, enrollmentId: Text, configurationDigest: Text, secret: Text,
    requestDigest: Text, keyFingerprint: Text, csr: Text)

  datatype Bundle = Bundle(
    nodeId: Text, relayServer: Text, publicEndpoint: Text, nodeCertificate: Text, relayCa: Text, centerKey: Text,
    telemetrySecret: Text, maxSessions: U32, capacityBandwidth: U64, draining: bool, relayPool: Text, profile: Text,
    wssEndpoint: Option<Text>, activateAfterHealth: bool, fastMediaPort: Option<U16>)

  datatype Response = Response(
    version: nat, purpose: Text, enrollmentId: Text, configurationDigest: Text, requestDigest: Text,
    keyFingerprint: Text, bundle: Bundle)

  datatype Certificate = Certificate(publicKey: Text, notBefore: nat, notAfter: nat)

  /** Cryptography, parsers and the broker, as functions. */
  datatype World = World(
    publicKey: Text -> Option<Text>, digest: Text -> Text, csr: (Text, Text) -> Text, isUuid: Text -> bool,
    certificate: Text -> Option<Certificate>, chained: (Text, Text) -> bool, decoded: Text -> Option<nat>,
    decodedUrl: Text -> Option<nat>, endpointOk: Text -> bool, configurationDigest: Bundle -> Text,
    broker: Claim -> Option<Response>, hostId: Option<Text>, jsonSize: Content -> nat)

  /** One run of the command: its clock, the key it would generate, whether the broker answers. */
  datatype Attempt = Attempt(now: nat, newKey: Text, online: bool)

  // Running with the power failing after `budget` more steps.

  datatype Machine = Machine(disk: Disk, budget: nat)

  datatype Progress<+T> = Progress(after: Machine, value: T)

  datatype Exec<+T> = Done(progress: Progress<T>) | Failed(disk: Disk, error: Text) | Crashed(disk: Disk) {
    predicate IsFailure() {
      !Done?
    }

    function PropagateFailure<U>(): Exec<U>
      requires IsFailure()
    {
      if Failed? then Failed(disk, error) else Crashed(disk)
    }

    function Extract(): Progress<T>
      requires !IsFailure()
    {
      progress
    }
  }

  function Return<T>(m: Machine, value: T): Exec<T> {
    Done(Progress(m, value))
  }

  /** An install that never replaces: an identical file is accepted, another one is a conflict. */
  function Write(m: Machine, name: Name, file: File): Exec<()> {
    if name in m.disk then
      if m.disk[name].mode != file.mode then Failed(m.disk, "state_file_permissions")
      else if m.disk[name].content != file.content then Failed(m.disk, "state_file_exists")
      else Return(m, ())
    else if m.budget == 0 then Crashed(m.disk)
    else Return(Machine(m.disk[name := file], m.budget - 1), ())
  }

  function Remove(m: Machine, name: Name): Exec<()> {
    if name !in m.disk then Return(m, ())
    else if m.budget == 0 then Crashed(m.disk)
    else Return(Machine(m.disk - {name}, m.budget - 1), ())
  }

  function RemovePending(m: Machine): Exec<()> {
    var first :- Remove(m, PendingRecord);
    Remove(first.after, PendingKey)
  }

  // Field checks.

  predicate IsLowerHex(c: char) {
    '0' <= c <= '9' || 'a' <= c <= 'f'
  }

  predicate ValidDigest(t: Text) {
    |t| == 71 && t[..7] == "sha256:" && forall i :: 7 <= i < 71 ==> IsLowerHex(t[i])
  }

  predicate IsEnvChar(c: char) {
    || 'a' <= c <= 'z' || 'A' <= c <= 'Z' || '0' <= c <= '9'
    || c == '.' || c == '-' || c == '_' || c == ':' || c == '[' || c == ']'
  }

  predicate SafeEnvValue(t: Text) {
    0 < |t| <= 256 && forall i :: 0 <= i < |t| ==> IsEnvChar(t[i])
  }

  predicate HasControl(t: Text) {
    exists i :: 0 <= i < |t| && IsControl(t[i])
  }

  /** Group and others have no access. */
  predicate OwnerOnly(mode: nat) {
    mode % 64 == 0
  }

  /** The size of a file in bytes. */
  function FileSize(w: World, f: File): nat {
    if f.content.Plain? then Size(f.content.text) else w.jsonSize(f.content)
  }

  /** Why a file is not a usable private input. */
  function PrivateProblem(w: World, f: File): Option<Text> {
    if FileSize(w, f) > MAX_PRIVATE_INPUT then Some("private_input_unsafe")
    else if !OwnerOnly(f.mode) then Some("private_input_permissions")
    else None
  }

  predicate ProfileFits(profile: Text, wss: Option<Text>, port: Option<U16>, endpointOk: Text -> bool) {
    && (profile == "native" || profile == "native-wss" || profile == "native-wss-fastmedia")
    && (profile == "native" <==> wss.None?)
    && (wss.Some? ==> endpointOk(wss.value))
    && (profile == "native-wss-fastmedia" <==> port.Some?)
    && port != Some(0)
  }

  predicate CodeUsable(w: World, code: Code, now: nat) {
    && ValidDigest(code.configurationDigest) && w.isUuid(code.enrollmentId) && w.decodedUrl(code.secret) == Some(32)
    && now < code.expiresAt <= now + 3600
  }

  predicate CertificateFor(w: World, pem: Text, fingerprint: Text, now: nat) {
    w.certificate(pem).Some? && var c := w.certificate(pem).value;
    w.digest(c.publicKey) == fingerprint && c.notBefore <= now < c.notAfter
  }

  predicate CertificateCurrent(w: World, pem: Text, now: nat) {
    w.certificate(pem).Some? && w.certificate(pem).value.notBefore <= now < w.certificate(pem).value.notAfter
  }

  predicate BundleUsable(w: World, b: Bundle, fingerprint: Text, configurationDigest: Text, now: nat) {
    && b.nodeId != "" && Size(b.nodeId) <= 128 && b.relayServer != "" && Size(b.relayServer) <= 256
    && b.relayServer == b.publicEndpoint
    && 0 < b.maxSessions <= 1_000_000 && 0 < b.capacityBandwidth && b.relayPool != "" && Size(b.relayPool) <= 128
    && ProfileFits(b.profile, b.wssEndpoint, b.fastMediaPort, w.endpointOk)
    && w.decodedUrl(b.telemetrySecret) == Some(32) && w.decoded(b.centerKey) == Some(32) && SafeEnvValue(b.relayServer)
    && CertificateFor(w, b.nodeCertificate, fingerprint, now) && CertificateCurrent(w, b.relayCa, now)
    && w.chained(b.nodeCertificate, b.relayCa) && w.configurationDigest(b) == configurationDigest
  }

  function HostBinding(w: World): Option<Text> {
    if w.hostId.None? || Size(w.hostId.value) > 512 || HasControl(w.hostId.value) then None
    else Some(w.digest(w.hostId.value))
  }

  // What one key leads to.

  function Fingerprint(w: World, key: Text): Option<Text> {
    if w.publicKey(key).Some? then Some(w.digest(w.publicKey(key).value)) else None
  }

  function RequestDigest(w: World, code: Code, fingerprint: Text, csr: Text): Text {
    w.digest("starry-pairing-claim-v1\nrelay\nenroll\n" + code.enrollmentId + "\n" + code.configurationDigest + "\n"
             + fingerprint + "\n" + w.digest(csr) + "\n")
  }

  function PendingFor(w: World, code: Code, fingerprint: Text, csr: Text): PendingIdentity {
    PendingIdentity(1, "relay", "enroll", code.enrollmentId, code.configurationDigest,
                    RequestDigest(w, code, fingerprint, csr), fingerprint, w.digest(csr), None)
  }

  function ClaimFor(w: World, code: Code, fingerprint: Text, csr: Text): Claim {
    Claim(1, "relay", "enroll", code.enrollmentId, code.configurationDigest, code.secret,
          RequestDigest(w, code, fingerprint, csr), fingerprint, csr)
  }

  predicate Echoes(r: Response, c: Claim) {
    && r.version == 1 && r.purpose == c.purpose && r.enrollmentId == c.enrollmentId
    && r.configurationDigest == c.configurationDigest && r.requestDigest == c.requestDigest
    && r.keyFingerprint == c.keyFingerprint
  }

  function Join(directory: Text, name: Text): Text {
    if directory != "" && directory[|directory| - 1] == '/' then directory + name else directory + "/" + name
  }

  function RuntimeFor(directory: Text, b: Bundle): Runtime {
    Runtime(1, b.nodeId, b.relayServer, b.publicEndpoint, Join(directory, "telemetry.secret"), b.maxSessions,
            b.capacityBandwidth, b.draining, b.relayPool, b.profile, b.wssEndpoint, b.activateAfterHealth,
            b.fastMediaPort)
  }

  function IdentityFor(code: Code, b: Bundle, fingerprint: Text, host: Text): Identity {
    Identity(1, "relay", code.enrollmentId, code.configurationDigest, b.nodeId, b.relayServer, fingerprint, host, 1)
  }

  datatype Variable = Variable(name: Text, value: Text)

  const SERVER_KEY := "KEY"
  const SECRET_FILE := "STARRY_RELAY_TELEMETRY_SECRET_FILE"
  const PUBLIC_ENDPOINT := "STARRY_RELAY_PUBLIC_ENDPOINT"
  const MAX_SESSIONS := "STARRY_RELAY_MAX_SESSIONS"
  const CAPACITY := "STARRY_RELAY_CAPACITY_BANDWIDTH_BPS"
  const DRAINING := "STARRY_RELAY_DRAINING"
  const ENROLLMENT_DIR := "STARRY_RELAY_ENROLLMENT_DIR"
  const MEDIA_PORT := "STARRY_RELAY_FAST_MEDIA_UDP_PORT"

  function Flag(b: bool): Text {
    if b then "1" else "0"
  }

  /** The variables exported for the relay process. */
  function Exported(directory: Text, key: Text, r: Runtime): seq<Variable> {
    [Variable(SERVER_KEY, key),
     Variable(SECRET_FILE, Join(directory, "telemetry.secret")),
     Variable(PUBLIC_ENDPOINT, r.publicEndpoint),
     Variable(MAX_SESSIONS, Decimal(r.maxSessions)),
     Variable(CAPACITY, Decimal(r.capacityBandwidth)),
     Variable(DRAINING, Flag(r.draining)),
     Variable(ENROLLMENT_DIR, directory)]
    + if r.fastMediaPort.Some? then [Variable(MEDIA_PORT, Decimal(r.fastMediaPort.value))] else []
  }

  function Lines(vars: seq<Variable>): Text {
    if vars == [] then "" else vars[0].name + "=" + vars[0].value + "\n" + Lines(vars[1..])
  }

  function Compatibility(directory: Text, key: Text, r: Runtime): Text {
    Lines(Exported(directory, key, r))
  }

  datatype Entry = Entry(name: Name, file: File)

  /** The ten installs of an enrollment, in order, the marker last. */
  function Manifest(directory: Text, code: Code, b: Bundle, fingerprint: Text, key: Text, host: Text): seq<Entry> {
    [Entry(NodeId, File(Plain(b.nodeId + "\n"), SHARED)),
     Entry(NodeKey, File(Plain(key), PRIVATE)),
     Entry(NodeCert, File(Plain(b.nodeCertificate), SHARED)),
     Entry(RelayCa, File(Plain(b.relayCa), SHARED)),
     Entry(CenterKey, File(Plain(b.centerKey + "\n"), SHARED)),
     Entry(TelemetrySecret, File(Plain(b.telemetrySecret + "\n"), PRIVATE)),
     Entry(HostId, File(Plain(host + "\n"), PRIVATE)),
     Entry(RelayConfig, File(RuntimeJson(RuntimeFor(directory, b)), SHARED)),
     Entry(CompatEnv, File(Plain(Compatibility(directory, b.centerKey, RuntimeFor(directory, b))), SHARED)),
     Entry(Marker, File(IdentityJson(IdentityFor(code, b, fingerprint, host)), PRIVATE))]
  }

  /** The installs from entry `j` on, in order, up to the first that fails. */
  function WriteFrom(m: Machine, entries: seq<Entry>, j: nat): Exec<()>
    requires j <= |entries|
    decreases |entries| - j
  {
    if j == |entries| then Return(m, ())
    else
      var first :- Write(m, entries[j].name, entries[j].file);
      WriteFrom(first.after, entries, j + 1)
  }

  // The phases of the command.

  predicate IdentityWellFormed(i: Identity) {
    && i.version == 1 && i.purpose == "relay" && i.generation != 0 && i.nodeId != "" && Size(i.nodeId) <= 128
    && i.relayServer != "" && Size(i.relayServer) <= 256 && ValidDigest(i.hostBinding)
    && ValidDigest(i.configurationDigest) && ValidDigest(i.keyFingerprint)
  }

  /** The text a file holds, and so the key it could hold; JSON is never a PEM key or certificate. */
  function KeyIn(w: World, disk: Disk, name: Name): Option<Text> {
    if name in disk && disk[name].content.Plain? then Fingerprint(w, disk[name].content.text) else None
  }

  function InstalledProblem(w: World, disk: Disk, fingerprint: Text, now: nat): Option<Text> {
    if NodeKey !in disk then Some("private_input_missing")
    else if PrivateProblem(w, disk[NodeKey]).Some? then PrivateProblem(w, disk[NodeKey])
    else if KeyIn(w, disk, NodeKey).None? then Some("installed_identity_key_invalid")
    else if KeyIn(w, disk, NodeKey) != Some(fingerprint) then Some("installed_identity_key_mismatch")
    else if NodeCert !in disk then Some("installed_identity_certificate_unreadable")
    else if !disk[NodeCert].content.Plain? || !CertificateFor(w, disk[NodeCert].content.text, fingerprint, now)
    then Some("pairing_certificate_invalid")
    else None
  }

  function PendingProblem(w: World, disk: Disk, i: Identity): Option<Text> {
    if PendingRecord in disk && !disk[PendingRecord].content.PendingJson? then Some("pairing_pending_invalid")
    else if PendingRecord in disk && !PendingOf(disk[PendingRecord].content.pending, i)
    then Some("pairing_completed_pending_mismatch")
    else if PendingKey in disk && PrivateProblem(w, disk[PendingKey]).Some? then PrivateProblem(w, disk[PendingKey])
    else if PendingKey in disk && KeyIn(w, disk, PendingKey).None? then Some("pairing_pending_key_invalid")
    else if PendingKey in disk && KeyIn(w, disk, PendingKey) != Some(i.keyFingerprint)
    then Some("pairing_completed_pending_key_mismatch")
    else None
  }

  predicate PendingOf(p: PendingIdentity, i: Identity) {
    && p.version == 1 && p.purpose == "relay" && p.enrollmentId == i.enrollmentId
    && p.configurationDigest == i.configurationDigest && p.keyFingerprint == i.keyFingerprint
  }

  /** Is the enrollment already finished under this code? If so, drop what is still pending. */
  function CompletedRetry(w: World, code: Code, m: Machine, now: nat): Exec<Option<Text>> {
    if Marker !in m.disk then Return(m, None)
    else if !m.disk[Marker].content.IdentityJson? || !IdentityWellFormed(m.disk[Marker].content.identity)
    then Failed(m.disk, "relay_identity_marker_invalid")
    else
      var i := m.disk[Marker].content.identity;
      var installed := InstalledProblem(w, m.disk, i.keyFingerprint, now);
      if installed.Some? then Failed(m.disk, installed.value)
      else if i.enrollmentId != code.enrollmentId || i.configurationDigest != code.configurationDigest
      then Return(m, None)
      else
        var pending := PendingProblem(w, m.disk, i);
        if pending.Some? then Failed(m.disk, pending.value)
        else
          var removed :- RemovePending(m);
          Return(removed.after, Some(i.keyFingerprint))
  }

  /** The pending key, newly generated when there is none. */
  function LoadOrCreateKey(w: World, m: Machine, newKey: Text): Exec<Text> {
    if PendingKey in m.disk then
      var problem := PrivateProblem(w, m.disk[PendingKey]);
      if problem.Some? then Failed(m.disk, problem.value)
      else if KeyIn(w, m.disk, PendingKey).None? then Failed(m.disk, "identity_key_invalid")
      else Return(m, m.disk[PendingKey].content.text)
    else if NodeKey in m.disk then Failed(m.disk, "identity_key_exists")
    else
      var written :- Write(m, PendingKey, File(Plain(newKey), PRIVATE));
      if Fingerprint(w, newKey).None? then Failed(written.after.disk, "identity_key_invalid")
      else Return(written.after, newKey)
  }

  function ValidateOrWritePending(m: Machine, expected: PendingIdentity): Exec<()> {
    if PendingRecord in m.disk then
      if !m.disk[PendingRecord].content.PendingJson? then Failed(m.disk, "pairing_pending_invalid")
      else if m.disk[PendingRecord].content.pending != expected then Failed(m.disk, "pairing_pending_identity_changed")
      else Return(m, ())
    else Write(m, PendingRecord, File(PendingJson(expected), PRIVATE))
  }

  datatype Claimed = Granted(bundle: Bundle) | Denied(error: Text)

  function ClaimBundle(w: World, code: Code, a: Attempt, claim: Claim): Claimed {
    if code.expiresAt <= a.now then Denied("pairing_code_expired")
    else if !a.online then Denied("pairing_broker_unreachable")
    else if w.broker(claim).None? then Denied("pairing_broker_claim_rejected")
    else if !Echoes(w.broker(claim).value, claim) then Denied("pairing_response_binding_mismatch")
    else if !BundleUsable(w, w.broker(claim).value.bundle, claim.keyFingerprint, code.configurationDigest, a.now)
    then Denied("relay_pairing_bundle_invalid")
    else Granted(w.broker(claim).value.bundle)
  }

  function Install(
    w: World, directory: Text, code: Code, m: Machine, b: Bundle, fingerprint: Text, key: Text): Exec<()> {
    if Marker in m.disk then Failed(m.disk, "relay_identity_exists")
    else if HostBinding(w).None? then Failed(m.disk, "relay_host_identity_unavailable")
    else WriteFrom(m, Manifest(directory, code, b, fingerprint, key, HostBinding(w).value), 0)
  }

  /** Once the claim is on record: ask for the bundle, install it, drop what was pending. */
  function EnrollRecorded(w: World, directory: Text, code: Code, m: Machine, a: Attempt, key: Text): Exec<Text>
    requires Fingerprint(w, key).Some?
  {
    var fingerprint := Fingerprint(w, key).value;
    var claimed := ClaimBundle(w, code, a, ClaimFor(w, code, fingerprint, w.csr(key, code.enrollmentId)));
    if claimed.Denied? then Failed(m.disk, claimed.error)
    else
      var installed :- Install(w, directory, code, m, claimed.bundle, fingerprint, key);
      var removed :- RemovePending(installed.after);
      Return(removed.after, fingerprint)
  }

  /** Everything after the pending key is known. */
  function EnrollKey(w: World, directory: Text, code: Code, m: Machine, a: Attempt, key: Text): Exec<Text>
    requires Fingerprint(w, key).Some?
  {
    var expected := PendingFor(w, code, Fingerprint(w, key).value, w.csr(key, code.enrollmentId));
    var recorded :- ValidateOrWritePending(m, expected);
    EnrollRecorded(w, directory, code, recorded.after, a, key)
  }

  function Enroll(w: World, directory: Text, code: Code, m: Machine, a: Attempt): Exec<Text> {
    if !CodeUsable(w, code, a.now) then Failed(m.disk, "pairing_code_invalid")
    else
      var completed :- CompletedRetry(w, code, m, a.now);
      if completed.value.Some? then Return(completed.after, completed.value.value)
      else if Marker in m.disk then Failed(m.disk, "relay_identity_exists")
      else
        var loaded :- LoadOrCreateKey(w, m, a.newKey);
        EnrollKey(w, directory, code, loaded.after, a, loaded.value)
  }
}
