/** The framing of the local control socket, read from a stream that may split it anywhere. */
module LocalControl {
  import opened Basics

  /** "STARRYCTL/1" and a newline. */
  const MAGIC: Bytes := [83, 84, 65, 82, 82, 89, 67, 84, 76, 47, 49, 10]
  const MAX_FRAME_BYTES := 1024 * 1024
  const INITIAL_READ_BYTES := 1024
  const HEADER_BYTES := 16

  // Frames.

  function BigEndian(n: nat): (r: Bytes)
    requires n < 0x1_0000_0000
    ensures |r| == 4 && FromBigEndian(r) == n
  {
    [(n / 0x100_0000) as byte, (n / 0x1_0000 % 256) as byte, (n / 256 % 256) as byte, (n % 256) as byte]
  }

  function FromBigEndian(b: Bytes): nat
    requires |b| == 4
  {
    b[0] as nat * 0x100_0000 + b[1] as nat * 0x1_0000 + b[2] as nat * 256 + b[3] as nat
  }

  /** What the framing writer puts on the wire. */
  function Frame(payload: Bytes): (r: Bytes)
    requires |payload| <= MAX_FRAME_BYTES
    ensures |r| == HEADER_BYTES + |payload|
  {
    MAGIC + BigEndian(|payload|) + payload
  }

  datatype Received = Payload(bytes: Bytes) | Refused(framed: bool)

  /**
   What the reader makes of a stream holding `data` whose first read returned `first` bytes.
   Only the first read matters: everything after it is read exactly.
   */
  function Receive(data: Bytes, first: nat): Received
    requires first <= |data| && (first == 0 ==> data == [])
  {
    if first == 0 then Refused(false)
    else if first < 12 && data[..first] != MAGIC[..first] then Refused(false)
    else if |data| < 12 then Refused(true)
    else if data[..12] != MAGIC then Refused(false)
    else if |data| < HEADER_BYTES then Refused(true)
    else
      var length := FromBigEndian(data[12..HEADER_BYTES]);
      if length == 0 || length > MAX_FRAME_BYTES || |data| < HEADER_BYTES + length || HEADER_BYTES + length < first
      then Refused(true)
      else Payload(data[HEADER_BYTES..HEADER_BYTES + length])
  }

  lemma {:induction false} BigEndianUnique(b: Bytes)
    requires |b| == 4
    ensures FromBigEndian(b) < 0x1_0000_0000 && BigEndian(FromBigEndian(b)) == b
  {
    var n := FromBigEndian(b);
    assert n / 0x100_0000 == b[0] as nat;
    assert n / 0x1_0000 == b[0] as nat * 256 + b[1] as nat;
    assert n / 256 == b[0] as nat * 0x1_0000 + b[1] as nat * 256 + b[2] as nat;
  }

  ghost predicate StartsWith(data: Bytes, prefix: Bytes) {
    |prefix| <= |data| && data[..|prefix|] == prefix
  }

  lemma {:induction false} FrameParts(data: Bytes, payload: Bytes)
    requires |payload| <= MAX_FRAME_BYTES
    ensures StartsWith(data, Frame(payload)) <==>
      && |data| >= HEADER_BYTES + |payload| && data[..12] == MAGIC
      && data[12..HEADER_BYTES] == BigEndian(|payload|) && data[HEADER_BYTES..HEADER_BYTES + |payload|] == payload
  {
    if |data| >= HEADER_BYTES + |payload| {
      var cut := data[..HEADER_BYTES + |payload|];
      assert cut == cut[..12] + cut[12..HEADER_BYTES] + cut[HEADER_BYTES..];
      assert cut[..12] == data[..12] && cut[12..HEADER_BYTES] == data[12..HEADER_BYTES];
      assert cut[HEADER_BYTES..] == data[HEADER_BYTES..HEADER_BYTES + |payload|];
      var f := Frame(payload);
      assert f[..12] == MAGIC && f[12..HEADER_BYTES] == BigEndian(|payload|) && f[HEADER_BYTES..] == payload;
    }
  }

  /**
   A payload is received exactly when the stream begins with its frame, the payload is neither
   empty nor over a mebibyte, and the first read did not already run past the frame.
   */
  lemma {:induction false} ReceivedExactly(data: Bytes, first: nat, payload: Bytes)
    requires first <= |data| && (first == 0 ==> data == [])
    ensures Receive(data, first) == Payload(payload) <==>
      && 0 < |payload| <= 1_048_576 && first <= HEADER_BYTES + |payload| && StartsWith(data, Frame(payload))
  {
    if |payload| <= MAX_FRAME_BYTES {
      FrameParts(data, payload);
    }
    if |data| >= HEADER_BYTES {
      BigEndianUnique(data[12..HEADER_BYTES]);
      if first < 12 && data[..12] == MAGIC {
        assert data[..first] == data[..12][..first];
      }
    }
  }

  /** No frame begins another. */
  lemma {:induction false} FramesAlike(payload: Bytes, other: Bytes)
    requires |payload| <= MAX_FRAME_BYTES && |other| <= MAX_FRAME_BYTES && StartsWith(Frame(payload), Frame(other))
    ensures payload == other
  {
    var f := Frame(payload);
    assert f[12..HEADER_BYTES] == BigEndian(|payload|) && f[HEADER_BYTES..] == payload;
    FrameParts(f, other);
    assert f[HEADER_BYTES..HEADER_BYTES + |other|] == f[HEADER_BYTES..];
  }

  /** Whole frames come through however they are split; no strict prefix of one does. */
  lemma {:induction false} FrameRoundTrip(payload: Bytes, first: nat, kept: nat)
    requires 0 < |payload| <= 1_048_576 && kept <= HEADER_BYTES + |payload| && first <= kept
    requires first == 0 ==> kept == 0
    ensures kept == |Frame(payload)| ==> Receive(Frame(payload)[..kept], first) == Payload(payload)
    ensures kept < |Frame(payload)| ==> Receive(Frame(payload)[..kept], first).Refused?
  {
    var data := Frame(payload)[..kept];
    if kept == |Frame(payload)| {
      assert data == Frame(payload);
      ReceivedExactly(data, first, payload);
    } else if Receive(data, first).Payload? {
      var other := Receive(data, first).bytes;
      ReceivedExactly(data, first, other);
      assert Frame(payload)[..|Frame(other)|] == data[..|Frame(other)|];
      FramesAlike(payload, other);
      assert false;
    }
  }

  // The reader.

  /** A stream hands out what it holds in pieces of its own choosing. */
  class Stream {
    var data: Bytes
    var cuts: seq<nat>

    constructor (data: Bytes, cuts: seq<nat>)
      ensures this.data == data && this.cuts == cuts
    {
      this.data, this.cuts := data, cuts;
    }

    /** One read: nothing only at the end, otherwise between one byte and `limit`. */
    method Read(limit: nat) returns (r: Bytes)
      requires limit > 0
      modifies this
      ensures |r| <= limit && (r == [] <==> old(data) == [])
      ensures old(data) == r + data
    {
      var wanted := if cuts == [] then limit else Min(Max(cuts[0], 1), limit);
      var n := Min(wanted, |data|);
      cuts := if cuts == [] then [] else cuts[1..];
      r, data := data[..n], data[n..];
    }

    /** Reads until `count` bytes are there or the stream ends. */
    method ReadExact(count: nat) returns (r: Bytes, ok: bool)
      modifies this
      ensures ok <==> |old(data)| >= count
      ensures ok ==> r == old(data)[..count] && data == old(data)[count..]
    {
      r := [];
      while |r| < count
        invariant |r| <= count && old(data) == r + data
        decreases count - |r|
      {
        var piece := Read(count - |r|);
        if piece == [] {
          return r, false;
        }
        r := r + piece;
      }
      return r, true;
    }

    /** Fills a buffer from what was read ahead, then from the stream. */
    method ReadBuffered(initial: Bytes, cursor: nat, count: nat) returns (r: Bytes, next: nat, ok: bool)
      requires cursor <= |initial|
      modifies this
      ensures ok <==> |initial| - cursor + |old(data)| >= count
      ensures ok ==> r == (initial[cursor..] + old(data))[..count] && next == Min(cursor + count, |initial|)
      ensures ok ==> initial[next..] + data == (initial[cursor..] + old(data))[count..]
      ensures ok && next < |initial| ==> data == old(data)
    {
      var available := Min(|initial| - cursor, count);
      r, next, ok := initial[cursor..cursor + available], cursor + available, true;
      if available < count {
        var tail;
        tail, ok := ReadExact(count - available);
        r := r + tail;
      }
    }

    method ReadFramed(initial: Bytes) returns (r: Received)
      requires |initial| >= 12
      modifies this
      ensures initial[..12] == MAGIC ==> r == Receive(initial + old(data), |initial|)
      ensures r.Payload? ==> HEADER_BYTES + |r.bytes| <= |initial + old(data)|
      ensures r.Payload? ==> data == (initial + old(data))[HEADER_BYTES + |r.bytes|..]
    {
      ghost var all := initial + data;
      ghost var rest := initial[12..] + data;
      assert all[12..] == rest;
      var lengthBytes, cursor, ok := ReadBuffered(initial, 12, 4);
      if !ok {
        return Refused(true);
      }
      assert lengthBytes == all[12..HEADER_BYTES];
      var length := FromBigEndian(lengthBytes);
      if length == 0 || length > MAX_FRAME_BYTES {
        return Refused(true);
      }
      assert initial[cursor..] + data == all[HEADER_BYTES..];
      var payload, end, complete := ReadBuffered(initial, cursor, length);
      if !complete || end < |initial| {
        return Refused(true);
      }
      assert payload == all[HEADER_BYTES..HEADER_BYTES + length];
      return Payload(payload);
    }

    /** The reader meets its description for every stream and every way of cutting it. */
    method ReadRequest() returns (r: Received, ghost first: nat)
      modifies this
      ensures first <= Min(1024, |old(data)|) && (first == 0 ==> old(data) == [])
      ensures r == Receive(old(data), first)
      ensures r.Payload? ==> data == old(data)[HEADER_BYTES + |r.bytes|..]
    {
      ghost var all := data;
      var initial := Read(INITIAL_READ_BYTES);
      first := |initial|;
      if initial == [] {
        return Refused(false), first;
      }
      assert all[..first] == initial;
      if |initial| < 12 && initial == MAGIC[..|initial|] {
        var more, ok := ReadExact(12 - |initial|);
        if !ok {
          return Refused(true), first;
        }
        assert all == (initial + more) + data;
        initial := initial + more;
      }
      if |initial| >= 12 && initial[..12] == MAGIC {
        assert all[..12] == MAGIC;
        r := ReadFramed(initial);
        return r, first;
      }
      return Refused(false), first;
    }
  }

  // Comparing tokens without an early exit.

  function Xor(a: nat, b: nat): nat {
    if a == 0 && b == 0 then 0 else 2 * Xor(a / 2, b / 2) + (if a % 2 == b % 2 then 0 else 1)
  }

  function Or(a: nat, b: nat): nat {
    if a == 0 && b == 0 then 0 else 2 * Or(a / 2, b / 2) + (if a % 2 == 0 && b % 2 == 0 then 0 else 1)
  }

  lemma {:induction false} XorZero(a: nat, b: nat)
    ensures Xor(a, b) == 0 <==> a == b
    decreases a + b
  {
    if a != 0 || b != 0 {
      XorZero(a / 2, b / 2);
    }
  }

  lemma {:induction false} OrZero(a: nat, b: nat)
    ensures Or(a, b) == 0 <==> a == 0 && b == 0
    decreases a + b
  {
    if a != 0 || b != 0 {
      OrZero(a / 2, b / 2);
    }
  }

  function ByteAt(s: Bytes, i: nat): byte {
    if i < |s| then s[i] else 0
  }

  /** The accumulated difference is zero exactly for equal inputs, lengths included. */
  method ConstantTimeEq(left: Bytes, right: Bytes) returns (equal: bool)
    ensures equal <==> left == right
  {
    var difference := Xor(|left|, |right|);
    XorZero(|left|, |right|);
    var length := Max(|left|, |right|);
    var index := 0;
    while index < length
      invariant 0 <= index <= length
      invariant difference == 0 <==> |left| == |right| && forall k :: 0 <= k < index ==>
          ByteAt(left, k) == ByteAt(right, k)
    {
      var bits := Xor(ByteAt(left, index) as nat, ByteAt(right, index) as nat);
      XorZero(ByteAt(left, index) as nat, ByteAt(right, index) as nat);
      OrZero(difference, bits);
      difference := Or(difference, bits);
      index := index + 1;
    }
    assert |left| == |right| ==> forall k :: 0 <= k < length ==>
        ByteAt(left, k) == left[k] && ByteAt(right, k) == right[k];
    return difference == 0;
  }
}
