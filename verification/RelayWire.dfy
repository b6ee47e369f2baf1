/** The AKR1 wire format: headers, inner media frames and the bytes under the cookie MAC. */
module RelayWire {
  import opened Basics

  const PROTOCOL_VERSION: byte := 1
  const HEADER_BYTES := 32
  const HELLO_BYTES := 56
  const BIND_PREFIX_BYTES := 58
  const MAX_AUTHORIZATION_BYTES := 4096
  const MIN_MEDIA_BYTES := 89
  const CONTROLLER: byte := 1
  const TARGET: byte := 2
  const HELLO: byte := 1
  const HELLO_REPLY: byte := 2
  const BIND: byte := 3
  const BIND_REPLY: byte := 4
  const MEDIA: byte := 5

  const AKR1: Bytes := [65, 75, 82, 49]
  const AKF1: Bytes := [65, 75, 70, 49]

  // Little-endian integers.

  function Power256(k: nat): (p: nat)
    ensures p > 0
  {
    if k == 0 then 1 else 256 * Power256(k - 1)
  }

  function ToLe(n: nat, k: nat): (b: Bytes)
    ensures |b| == k
  {
    if k == 0 then [] else [(n % 256) as byte] + ToLe(n / 256, k - 1)
  }

  function FromLe(b: Bytes): nat {
    if b == [] then 0 else b[0] as nat + 256 * FromLe(b[1..])
  }

  lemma {:induction false} FromToLe(n: nat, k: nat)
    requires n < Power256(k)
    ensures FromLe(ToLe(n, k)) == n
  {
    if k > 0 {
      FromToLe(n / 256, k - 1);
      assert ToLe(n, k)[1..] == ToLe(n / 256, k - 1);
    }
  }

  lemma {:induction false} ToFromLe(b: Bytes)
    ensures FromLe(b) < Power256(|b|) && ToLe(FromLe(b), |b|) == b
    decreases |b|
  {
    if b != [] {
      ToFromLe(b[1..]);
      assert b == [b[0]] + b[1..];
    }
  }

  // Headers.

  datatype AllocationId = AllocationId(bytes: Bytes)

  datatype Header = Header(kind: byte, role: byte, sessionId: nat, allocation: AllocationId)

  predicate AllZero(b: Bytes) {
    forall i :: 0 <= i < |b| ==> b[i] == 0
  }

  /** Headers a peer may send. */
  ghost predicate Requestable(h: Header) {
    && h.kind in {HELLO, BIND, MEDIA} && h.role in {CONTROLLER, TARGET}
    && 0 < h.sessionId < Power256(8) && |h.allocation.bytes| == 16 && !AllZero(h.allocation.bytes)
  }

  function Parse(packet: Bytes): Option<Header> {
    if |packet| < HEADER_BYTES || packet[..4] != AKR1 || packet[4] != PROTOCOL_VERSION || packet[7] != 0
       || packet[5] !in {HELLO, BIND, MEDIA} || packet[6] !in {CONTROLLER, TARGET}
    then None
    else
      var sessionId := FromLe(packet[8..16]);
      var allocation := packet[16..32];
      if sessionId == 0 || AllZero(allocation) then None
      else Some(Header(packet[5], packet[6], sessionId, AllocationId(allocation)))
  }

  function Encode(h: Header, kind: byte): Bytes {
    AKR1 + [PROTOCOL_VERSION, kind, h.role, 0] + ToLe(h.sessionId, 8) + h.allocation.bytes
  }

  /** Where the fields of an encoded header stand. */
  lemma {:induction false} EncodeLayout(h: Header, kind: byte, tail: Bytes)
    requires |h.allocation.bytes| == 16
    ensures var p := Encode(h, kind) + tail;
      && |Encode(h, kind)| == HEADER_BYTES && p[..4] == AKR1
      && p[4] == PROTOCOL_VERSION && p[5] == kind && p[6] == h.role && p[7] == 0
      && p[8..16] == ToLe(h.sessionId, 8) && p[16..32] == h.allocation.bytes
  {
  }

  /** Parsing undoes encoding, whatever follows the header. */
  lemma {:induction false} ParseEncode(h: Header, tail: Bytes)
    requires Requestable(h)
    ensures Parse(Encode(h, h.kind) + tail) == Some(h)
  {
    EncodeLayout(h, h.kind, tail);
    FromToLe(h.sessionId, 8);
  }

  /** Everything that parses is the encoding of a header a peer may send. */
  lemma {:induction false} EncodeParse(packet: Bytes)
    requires Parse(packet).Some?
    ensures var h := Parse(packet).value;
      Requestable(h) && Encode(h, h.kind) + packet[HEADER_BYTES..] == packet
  {
    var h := Parse(packet).value;
    ToFromLe(packet[8..16]);
    assert packet == packet[..4] + packet[4..8] + packet[8..16] + packet[16..32] + packet[32..];
    assert packet[4..8] == [PROTOCOL_VERSION, h.kind, h.role, 0];
  }

  /** A reply is never mistaken for a request, so replies cannot be reflected into the relay. */
  lemma {:induction false} RepliesDoNotParse(h: Header, kind: byte, tail: Bytes)
    requires |h.allocation.bytes| == 16 && kind in {HELLO_REPLY, BIND_REPLY}
    ensures Parse(Encode(h, kind) + tail) == None
  {
    EncodeLayout(h, kind, tail);
  }

  /** The inner frame's sequence number, when it belongs to this role and session. */
  function MediaSequence(payload: Bytes, role: byte, sessionId: nat): Option<nat> {
    if |payload| < MIN_MEDIA_BYTES || payload[..4] != AKF1 || payload[4] != 1
       || payload[5] as int != (if role == 0 then 0 else role as int - 1)
       || FromLe(payload[6..14]) != sessionId
    then None
    else
      var sequence := FromLe(payload[14..22]);
      if sequence > 0 then Some(sequence) else None
  }

  /** A media frame as an endpoint writes it. */
  function MediaFrame(role: byte, sessionId: nat, sequence: nat, tail: Bytes): Bytes
    requires role in {CONTROLLER, TARGET}
  {
    AKF1 + [1, role - 1] + ToLe(sessionId, 8) + ToLe(sequence, 8) + tail
  }

  lemma {:induction false} MediaFrameLayout(role: byte, sessionId: nat, sequence: nat, tail: Bytes)
    requires role in {CONTROLLER, TARGET}
    ensures var p := MediaFrame(role, sessionId, sequence, tail);
      && |p| == 22 + |tail| && p[..4] == AKF1 && p[4] == 1 && p[5] == role - 1
      && p[6..14] == ToLe(sessionId, 8) && p[14..22] == ToLe(sequence, 8) && p[22..] == tail
  {
  }

  /** Reading a frame gives back the number it was written with, exactly for the role and session it was written for. */
  lemma {:induction false} FrameRead(role: byte, sessionId: nat, sequence: nat, tail: Bytes, role': byte, id: nat)
    requires role in {CONTROLLER, TARGET} && role' in {CONTROLLER, TARGET}
    requires sessionId < Power256(8) && sequence < Power256(8)
    ensures MediaSequence(MediaFrame(role, sessionId, sequence, tail), role', id) ==
      if role' == role && id == sessionId && sequence > 0 && |tail| >= 67 then Some(sequence) else None
  {
    MediaFrameLayout(role, sessionId, sequence, tail);
    FromToLe(sessionId, 8);
    FromToLe(sequence, 8);
  }

  /** Everything that is read is a frame written for that role and session with that number. */
  lemma {:induction false} FrameWritten(payload: Bytes, role: byte, sessionId: nat)
    requires role in {CONTROLLER, TARGET} && MediaSequence(payload, role, sessionId).Some?
    ensures var n := MediaSequence(payload, role, sessionId).value;
      && |payload| >= 89 && n == FromLe(payload[14..22]) && 0 < n < Power256(8)
      && payload == MediaFrame(role, sessionId, n, payload[22..])
  {
    ToFromLe(payload[6..14]);
    ToFromLe(payload[14..22]);
    assert payload == payload[..4] + payload[4..6] + payload[6..14] + payload[14..22] + payload[22..];
    assert payload[4..6] == [1, role - 1];
  }

  // Addresses and cookies.

  datatype Ip = V4(octets: Bytes) | V6(octets: Bytes)
  {
    predicate Valid() {
      |octets| == if V4? then 4 else 16
    }
  }

  datatype Address = Address(ip: Ip, port: nat)
  {
    predicate Valid() {
      ip.Valid() && port < 65536
    }
  }

  /** "starry-akr1-cookie-v1" and a zero byte. */
  const COOKIE_DOMAIN: Bytes :=
    [115, 116, 97, 114, 114, 121, 45, 97, 107, 114, 49, 45, 99, 111, 111, 107, 105, 101, 45, 118, 49, 0]

  /** The bytes the cookie authenticates. */
  function CookieBytes(source: Address, h: Header, nonce: Bytes, epoch: nat): Bytes {
    COOKIE_DOMAIN + source.ip.octets +
    (ToLe(source.port, 2) + [h.role] + ToLe(h.sessionId, 8) + h.allocation.bytes + nonce + ToLe(epoch, 8))
  }

  lemma {:induction false} SplitEqual(a: Bytes, b: Bytes, c: Bytes, d: Bytes)
    requires a + b == c + d && |a| == |c|
    ensures a == c && b == d
  {
    assert a == (a + b)[..|a|] == (c + d)[..|c|] == c;
    assert b == (a + b)[|a|..] == (c + d)[|c|..] == d;
  }

  ghost predicate CookieInput(source: Address, h: Header, nonce: Bytes, epoch: nat) {
    && source.Valid() && h.sessionId < Power256(8) && |h.allocation.bytes| == 16
    && |nonce| == 16 && epoch < Power256(8)
  }

  /** The fixed-length part after the address determines its fields. */
  lemma {:induction false} CookieTail(p: nat, h: Header, n: Bytes, e: nat, p': nat, h': Header, n': Bytes, e': nat)
    requires p < Power256(2) && p' < Power256(2) && e < Power256(8) && e' < Power256(8)
    requires h.sessionId < Power256(8) && h'.sessionId < Power256(8)
    requires |h.allocation.bytes| == |h'.allocation.bytes| == |n| == |n'| == 16
    requires ToLe(p, 2) + [h.role] + ToLe(h.sessionId, 8) + h.allocation.bytes + n + ToLe(e, 8) ==
             ToLe(p', 2) + [h'.role] + ToLe(h'.sessionId, 8) + h'.allocation.bytes + n' + ToLe(e', 8)
    ensures p == p' && h.role == h'.role && h.sessionId == h'.sessionId && h.allocation == h'.allocation
    ensures n == n' && e == e'
  {
    var a1, b1 := ToLe(p, 2) + [h.role] + ToLe(h.sessionId, 8) + h.allocation.bytes + n,
                  ToLe(p', 2) + [h'.role] + ToLe(h'.sessionId, 8) + h'.allocation.bytes + n';
    SplitEqual(a1, ToLe(e, 8), b1, ToLe(e', 8));
    var a2, b2 := ToLe(p, 2) + [h.role] + ToLe(h.sessionId, 8) + h.allocation.bytes,
                  ToLe(p', 2) + [h'.role] + ToLe(h'.sessionId, 8) + h'.allocation.bytes;
    SplitEqual(a2, n, b2, n');
    var a3, b3 := ToLe(p, 2) + [h.role] + ToLe(h.sessionId, 8), ToLe(p', 2) + [h'.role] + ToLe(h'.sessionId, 8);
    SplitEqual(a3, h.allocation.bytes, b3, h'.allocation.bytes);
    SplitEqual(ToLe(p, 2) + [h.role], ToLe(h.sessionId, 8), ToLe(p', 2) + [h'.role], ToLe(h'.sessionId, 8));
    SplitEqual(ToLe(p, 2), [h.role], ToLe(p', 2), [h'.role]);
    FromToLe(p, 2);
    FromToLe(p', 2);
    FromToLe(h.sessionId, 8);
    FromToLe(h'.sessionId, 8);
    FromToLe(e, 8);
    FromToLe(e', 8);
  }

  /**
   Two cookies over the same bytes are for the same address, port, role, session,
   allocation, nonce and epoch: no field can be traded against another, not even
   across IPv4 and IPv6.
   */
  lemma {:induction false} CookieBytesInjective(
    s: Address, h: Header, n: Bytes, e: nat, s': Address, h': Header, n': Bytes, e': nat)
    requires CookieInput(s, h, n, e) && CookieInput(s', h', n', e')
    requires CookieBytes(s, h, n, e) == CookieBytes(s', h', n', e')
    ensures s == s' && h.role == h'.role && h.sessionId == h'.sessionId && h.allocation == h'.allocation
    ensures n == n' && e == e'
  {
    var t := ToLe(s.port, 2) + [h.role] + ToLe(h.sessionId, 8) + h.allocation.bytes + n + ToLe(e, 8);
    var t' := ToLe(s'.port, 2) + [h'.role] + ToLe(h'.sessionId, 8) + h'.allocation.bytes + n' + ToLe(e', 8);
    assert |t| == |t'| == 51;
    assert |s.ip.octets| == |s'.ip.octets|;
    SplitEqual(COOKIE_DOMAIN + s.ip.octets, t, COOKIE_DOMAIN + s'.ip.octets, t');
    SplitEqual(COOKIE_DOMAIN, s.ip.octets, COOKIE_DOMAIN, s'.ip.octets);
    assert Power256(2) == 65536;
    CookieTail(s.port, h, n, e, s'.port, h', n', e');
  }
}
