/** Signed FastMedia authorizations and what a relay requires of them. */
module RelayGrants {
  import opened Basics
  import opened Texts
  import opened RelayWire

  const GRANT_VERSION := 1
  const MIN_RELAY_DATAGRAM := 608
  const MAX_RELAY_DATAGRAM := 1400
  const MIN_BITRATE_KBPS := 1_000
  const MAX_BITRATE_KBPS := 200_000
  const MAX_GRANT_TTL_SECONDS := 300
  const MAX_SESSION_UUID_BYTES := 128

  datatype Grant = Grant(
    version: nat, sessionUuid: Text, expiresAt: nat, allowFastCompat: bool, allowFastMedia: bool,
    maxBitrateKbps: nat, relayUdpProtocol: nat, relayServer: Text, relayUdpPort: nat,
    relayAllocationId: Bytes, relayMaxDatagram: nat, relayEndpointRole: nat)

  /** What every grant for one allocation must agree on. */
  datatype GrantInvariant = GrantInvariant(
    sessionDigest: Bytes, expiresAt: nat, maxBitrateKbps: nat, maxDatagram: nat)

  datatype Validation = Accepted(terms: GrantInvariant) | WrongRole | WrongAllocation | Refused

  predicate GrantFits(grant: Grant, relayServer: Text, udpPort: nat, unix: nat) {
    && grant.version == GRANT_VERSION && grant.sessionUuid != "" && Size(grant.sessionUuid) <= MAX_SESSION_UUID_BYTES
    && grant.allowFastMedia && grant.allowFastCompat && grant.relayUdpProtocol == GRANT_VERSION
    && EqIgnoreCase(grant.relayServer, relayServer) && grant.relayUdpPort == udpPort
    && MIN_RELAY_DATAGRAM <= grant.relayMaxDatagram <= MAX_RELAY_DATAGRAM
    && MIN_BITRATE_KBPS <= grant.maxBitrateKbps <= MAX_BITRATE_KBPS
    && unix < grant.expiresAt <= unix + MAX_GRANT_TTL_SECONDS
  }

  function Validated(
    grant: Grant, h: Header, relayServer: Text, udpPort: nat, unix: nat, digest: Text -> Bytes): Validation {
    if grant.relayEndpointRole != h.role as nat then WrongRole
    else if grant.relayAllocationId != h.allocation.bytes then WrongAllocation
    else if !GrantFits(grant, relayServer, udpPort, unix) then Refused
    else Accepted(GrantInvariant(digest(grant.sessionUuid), grant.expiresAt, grant.maxBitrateKbps,
                                 grant.relayMaxDatagram))
  }
}
