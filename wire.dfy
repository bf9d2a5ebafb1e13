/** The segment header shared by client and server: three unsigned 32-bit
    fields in network (big-endian) byte order, `struct.pack('!III', seq, ack, type)`,
    optionally followed by a payload. */
module Wire {

  type byte = x: int | 0 <= x < 0x100

  const U32_LIMIT: int := 0x1_0000_0000
  type u32 = x: int | 0 <= x < 0x1_0000_0000

  /** Size of the packed header in bytes. */
  const HEADER_LEN: nat := 12

  // Segment type tags, as plain integers on the wire.
  const SYN: u32 := 0
  const SYN_ACK: u32 := 1
  const ACK: u32 := 2
  const DATA: u32 := 3
  const DATA_ACK: u32 := 4
  const FIN: u32 := 5
  const FIN_ACK: u32 := 6

  datatype Option<T> = None | Some(value: T)

  /** A UDP endpoint (IP and port). */
  datatype Addr = Addr(host: string, port: int)

  /** A datagram and the remote endpoint: the sender for one that
      `recvfrom` returned, the destination for one passed to `sendto`. */
  datatype Datagram = Datagram(bytes: seq<byte>, peer: Addr)

  /** What one `recvfrom` on a socket with a timeout yields. */
  datatype Recv = TimedOut | Received(datagram: Datagram)

  /** The decoded header. `kind` is any u32: unknown tags are not rejected. */
  datatype Header = Header(seqNum: u32, ackNum: u32, kind: u32)

  /** The value of four bytes read most significant first. */
  function ReadU32(b: seq<byte>): (x: u32)
    requires |b| == 4
  {
    var hi: int := (b[0] as int) * 0x100 + b[1];
    var mid: int := hi * 0x100 + b[2];
    mid * 0x100 + b[3]
  }

  /** One u32 as four bytes, most significant first. */
  function BigEndian32(x: u32): (r: seq<byte>)
    ensures |r| == 4
  {
    var q1 := x / 0x100;
    var q2 := q1 / 0x100;
    var q3 := q2 / 0x100;
    [q3, q2 % 0x100, q1 % 0x100, x % 0x100]
  }

  /** Writing a value as four bytes and reading them back gives the value. */
  lemma ReadOfBigEndian(x: u32)
    ensures ReadU32(BigEndian32(x)) == x
  {
    var q1 := x / 0x100;
    var q2 := q1 / 0x100;
    var q3 := q2 / 0x100;
    assert (q3 * 0x100 + q2 % 0x100) == q2;
    assert q2 * 0x100 + q1 % 0x100 == q1;
  }

  /** Reading four bytes and writing the value back gives the same bytes. */
  lemma BigEndianOfRead(b: seq<byte>)
    requires |b| == 4
    ensures BigEndian32(ReadU32(b)) == b
  {
    var hi: int := (b[0] as int) * 0x100 + b[1];
    var mid: int := hi * 0x100 + b[2];
    var x: int := mid * 0x100 + b[3];
    assert x / 0x100 == mid && x % 0x100 == b[3];
    assert mid / 0x100 == hi && mid % 0x100 == b[2];
    assert hi / 0x100 == b[0] && hi % 0x100 == b[1];
  }

  /** `struct.pack('!III', seq, ack, kind)` for fields already in range. */
  function Pack(h: Header): (r: seq<byte>)
    ensures |r| == HEADER_LEN
  {
    BigEndian32(h.seqNum) + BigEndian32(h.ackNum) + BigEndian32(h.kind)
  }

  /** The packed header holds the three fields in order, four bytes each. */
  lemma PackFieldsInOrder(h: Header)
    ensures ReadU32(Pack(h)[0..4]) == h.seqNum
    ensures ReadU32(Pack(h)[4..8]) == h.ackNum
    ensures ReadU32(Pack(h)[8..12]) == h.kind
  {
    var r := Pack(h);
    assert r[0..4] == BigEndian32(h.seqNum);
    assert r[4..8] == BigEndian32(h.ackNum);
    assert r[8..12] == BigEndian32(h.kind);
    ReadOfBigEndian(h.seqNum);
    ReadOfBigEndian(h.ackNum);
    ReadOfBigEndian(h.kind);
  }

  /** `struct.pack('!III', s, a, k)` on arbitrary integers: it raises
      `struct.error` (here None) unless every field fits in 32 unsigned bits. */
  function PackFields(s: int, a: int, k: int): (r: Option<seq<byte>>)
    ensures r.Some? <==> 0 <= s < U32_LIMIT && 0 <= a < U32_LIMIT && 0 <= k < U32_LIMIT
    ensures r.Some? ==> |r.value| == HEADER_LEN && Unpack(r.value) == Some(Header(s, a, k))
  {
    if 0 <= s < U32_LIMIT && 0 <= a < U32_LIMIT && 0 <= k < U32_LIMIT then
      UnpackPack(Header(s, a, k));
      Some(Pack(Header(s, a, k)))
    else
      None
  }

  /** `struct.unpack('!III', b)`: fails (None) unless `b` is exactly 12 bytes. */
  function Unpack(b: seq<byte>): (r: Option<Header>)
    ensures r.Some? <==> |b| == HEADER_LEN
  {
    if |b| != HEADER_LEN then None
    else Some(Header(ReadU32(b[0..4]), ReadU32(b[4..8]), ReadU32(b[8..12])))
  }

  /** `struct.unpack('!III', b[:12])`: Python slicing never fails, so this
      accepts any datagram of at least 12 bytes and reads only its first 12. */
  function UnpackHead(b: seq<byte>): (r: Option<Header>)
    ensures r.Some? <==> |b| >= HEADER_LEN
    ensures r.Some? ==> r == Unpack(b[..HEADER_LEN])
  {
    if |b| < HEADER_LEN then None else Unpack(b[..HEADER_LEN])
  }

  /** Bytes after the header never change what the header decodes to. */
  lemma UnpackHeadIgnoresTail(b: seq<byte>, tail: seq<byte>)
    requires |b| >= HEADER_LEN
    ensures UnpackHead(b + tail) == UnpackHead(b)
  {
    assert (b + tail)[..HEADER_LEN] == b[..HEADER_LEN];
  }

  /** A header followed by a payload: `header + payload`. */
  function Segment(h: Header, payload: seq<byte>): (r: seq<byte>)
    ensures |r| == HEADER_LEN + |payload|
  {
    Pack(h) + payload
  }

  /** The receiver reads the header back from the first 12 bytes of a
      segment, and the payload follows untouched. */
  lemma SegmentParts(h: Header, payload: seq<byte>)
    ensures Segment(h, payload)[HEADER_LEN..] == payload
    ensures UnpackHead(Segment(h, payload)) == Some(h)
  {
    var r := Segment(h, payload);
    assert r[..HEADER_LEN] == Pack(h);
    UnpackPack(h);
  }

  /** Decoding an encoded header returns the same three fields. */
  lemma UnpackPack(h: Header)
    ensures Unpack(Pack(h)) == Some(h)
  {
    PackFieldsInOrder(h);
  }

  /** Encoding a decoded header returns the same twelve bytes. */
  lemma PackUnpack(b: seq<byte>)
    requires |b| == HEADER_LEN
    ensures Pack(Unpack(b).value) == b
  {
    BigEndianOfRead(b[0..4]);
    BigEndianOfRead(b[4..8]);
    BigEndianOfRead(b[8..12]);
    assert b == b[0..4] + b[4..8] + b[8..12];
  }

  /** The encoding is one-to-one: different headers never share bytes. */
  lemma PackInjective(h1: Header, h2: Header)
    requires Pack(h1) == Pack(h2)
    ensures h1 == h2
  {
    UnpackPack(h1);
    UnpackPack(h2);
  }

  /** Byte-level layout: each field occupies four bytes, most significant first. */
  lemma PackLayout(h: Header)
    ensures Pack(h)[0] == h.seqNum / 0x100_0000 && Pack(h)[3] == h.seqNum % 0x100
    ensures Pack(h)[4] == h.ackNum / 0x100_0000 && Pack(h)[7] == h.ackNum % 0x100
    ensures Pack(h)[8] == h.kind / 0x100_0000 && Pack(h)[11] == h.kind % 0x100
  {
  }
}
