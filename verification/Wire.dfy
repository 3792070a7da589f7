/** The datagram format: a 36-byte little-endian header and up to 10204 payload bytes
    (robotbus/lib/MessageSerializable.cpp). */
module Wire {
  import opened Basics

  const HEADER_SIZE := 36
  const MAX_PACKAGE := 10240
  const CHUNK := MAX_PACKAGE - HEADER_SIZE

  const NO_OBJECT: byte := 0
  const FILE_OBJECT: byte := 1
  const BYTES_OBJECT: byte := 2
  const STRING_OBJECT: byte := 3

  type uint16 = x: int | 0 <= x < 0x1_0000

  datatype Header = Header(
    needReply: bool,
    uid: int32,
    peerUid: int32,
    what: int32,
    value: int32,
    extend: int32,
    objType: byte,
    blockType: byte,
    count: uint16,
    sizeOrPosition: int32)

  /** A datagram before it is laid out in bytes; Datagram gives the bytes. */
  datatype Packet = Packet(header: Header, payload: seq<byte>)

  /** The part of the header that Serialize writes before it asks the object for bytes. */
  function FrontBytes(h: Header): (s: seq<byte>)
    ensures |s| == 24
  {
    [0x4D, 0x53, 0x60, if h.needReply then 1 else 0]
    + Le32(h.uid) + Le32(h.peerUid) + Le32(h.what) + Le32(h.value) + Le32(h.extend)
  }

  /** The part that it writes afterwards. */
  function BackBytes(h: Header): (s: seq<byte>)
    ensures |s| == 12
  {
    [h.objType, h.blockType, 0, 0, 0, 0, h.count % 0x100, h.count / 0x100] + Le32(h.sizeOrPosition)
  }

  function HeaderBytes(h: Header): (s: seq<byte>)
    ensures |s| == HEADER_SIZE
  {
    FrontBytes(h) + BackBytes(h)
  }

  predicate CheckType(bytes: seq<byte>) {
    |bytes| >= HEADER_SIZE && bytes[0] == 0x4D && bytes[1] == 0x53 && bytes[2] == 0x60
  }

  function Int32At(bytes: seq<byte>, i: nat): int32
    requires i + 4 <= |bytes|
  {
    FromLe32(bytes[i], bytes[i + 1], bytes[i + 2], bytes[i + 3])
  }

  function ParseHeader(bytes: seq<byte>): Header
    requires CheckType(bytes)
  {
    Header(bytes[3] == 1, Int32At(bytes, 4), Int32At(bytes, 8), Int32At(bytes, 12), Int32At(bytes, 16),
           Int32At(bytes, 20), bytes[24], bytes[25], bytes[30] as int + 0x100 * bytes[31] as int, Int32At(bytes, 32))
  }

  /** The part of a datagram that the object reads. */
  function PayloadOf(bytes: seq<byte>): seq<byte>
    requires CheckType(bytes) && |bytes| >= HEADER_SIZE + ParseHeader(bytes).count
  {
    bytes[HEADER_SIZE..HEADER_SIZE + ParseHeader(bytes).count]
  }

  function Datagram(h: Header, payload: seq<byte>): (s: seq<byte>)
    ensures |s| == HEADER_SIZE + |payload|
  {
    HeaderBytes(h) + payload
  }

  function BytesOf(p: Packet): seq<byte> {
    Datagram(p.header, p.payload)
  }

  lemma Int32AtSlice(bytes: seq<byte>, i: nat, x: int32)
    requires i + 4 <= |bytes| && bytes[i..i + 4] == Le32(x)
    ensures Int32At(bytes, i) == x
  {
    Le32RoundTrip(x);
    var s := bytes[i..i + 4];
    assert s[0] == bytes[i] && s[1] == bytes[i + 1] && s[2] == bytes[i + 2] && s[3] == bytes[i + 3];
  }

  lemma HeaderSlices(h: Header)
    ensures var s := HeaderBytes(h);
      && s[4..8] == Le32(h.uid) && s[8..12] == Le32(h.peerUid) && s[12..16] == Le32(h.what)
      && s[16..20] == Le32(h.value) && s[20..24] == Le32(h.extend) && s[32..36] == Le32(h.sizeOrPosition)
      && s[24] == h.objType && s[25] == h.blockType
      && s[30] as int + 0x100 * s[31] as int == h.count
  {
  }

  lemma HeaderRoundTrip(h: Header, d: seq<byte>)
    requires |d| >= HEADER_SIZE && d[..HEADER_SIZE] == HeaderBytes(h)
    ensures CheckType(d) && ParseHeader(d) == h
  {
    var s := HeaderBytes(h);
    HeaderSlices(h);
    assert forall i :: 0 <= i < HEADER_SIZE ==> d[i] == s[i];
    assert d[4..8] == s[4..8] && d[8..12] == s[8..12] && d[12..16] == s[12..16];
    assert d[16..20] == s[16..20] && d[20..24] == s[20..24] && d[32..36] == s[32..36];
    Int32AtSlice(d, 4, h.uid);
    Int32AtSlice(d, 8, h.peerUid);
    Int32AtSlice(d, 12, h.what);
    Int32AtSlice(d, 16, h.value);
    Int32AtSlice(d, 20, h.extend);
    Int32AtSlice(d, 32, h.sizeOrPosition);
  }

  /** Wire round trip: every field and the payload come back, and the length test of the
      receiving side holds. */
  lemma DatagramRoundTrip(h: Header, payload: seq<byte>)
    requires h.count == |payload| <= CHUNK
    ensures var d := Datagram(h, payload);
      && CheckType(d) && ParseHeader(d) == h
      && |d| == HEADER_SIZE + ParseHeader(d).count <= MAX_PACKAGE
      && PayloadOf(d) == payload
  {
    HeaderRoundTrip(h, Datagram(h, payload));
  }
}
