/** The connection set-up and tear-down rules of both programs: the segments
    each side builds and the checks each side applies to the one it gets back.
    The random sequence numbers are parameters, each within the inclusive
    range that `random.randint` draws it from. */
module Handshake {
  import opened Wire

  const CLIENT_ISN_MAX: int := 10000
  const SERVER_ISN_MIN: int := 20000
  const SERVER_ISN_MAX: int := 30000
  const SERVER_FSN_MIN: int := 40000
  const SERVER_FSN_MAX: int := 50000

  predicate ClientIsn(isn: int) { 0 <= isn <= CLIENT_ISN_MAX }
  predicate ServerIsn(isn: int) { SERVER_ISN_MIN <= isn <= SERVER_ISN_MAX }
  predicate ServerFsn(fsn: int) { SERVER_FSN_MIN <= fsn <= SERVER_FSN_MAX }

  /** The header carried by a reply, when it can be unpacked at all. */
  function HeaderOf(reply: Recv): (r: Option<Header>)
  {
    if reply.Received? then Unpack(reply.datagram.bytes) else None
  }

  // ---------------------------------------------------------------- client

  /** Step 1 of the client: SYN(seq = client_isn, ack = 0). */
  function SynSegment(clientIsn: int): (r: seq<byte>)
    requires ClientIsn(clientIsn)
    ensures Unpack(r) == Some(Header(clientIsn, 0, SYN))
  {
    UnpackPack(Header(clientIsn, 0, SYN));
    Pack(Header(clientIsn, 0, SYN))
  }

  /** The check of udpclient.py:47. */
  predicate ValidSynAck(clientIsn: int, h: Header)
  {
    h.kind == SYN_ACK && h.ackNum == clientIsn + 1
  }

  /** How the client's handshake ends without a connection. `NoReply` and
      `BadSynAck` print a message and exit with status 1; `MalformedReply`
      (struct.unpack on a reply that is not 12 bytes) and `AckOverflow`
      (struct.pack of server_isn + 1 beyond 32 bits) raise `struct.error`,
      which nothing catches. In all four no data is ever sent. */
  datatype ConnectFailure = NoReply | BadSynAck | MalformedReply | AckOverflow

  datatype Connect = Connected(finalAck: seq<byte>, session: Addr) | Failed(why: ConnectFailure)

  /** Steps 2 and 3 of the client (udpclient.py:41-65): validate the reply
      and answer it with ACK(seq = client_isn + 1, ack = server_isn + 1),
      sent to the address the reply came from, which every later send uses. */
  function ClientConnect(clientIsn: int, reply: Recv): (r: Connect)
    requires ClientIsn(clientIsn)
    ensures r == Failed(NoReply) <==> reply.TimedOut?
    ensures r == Failed(MalformedReply) <==> reply.Received? && |reply.datagram.bytes| != HEADER_LEN
    ensures r.Connected? <==>
      HeaderOf(reply).Some? && ValidSynAck(clientIsn, HeaderOf(reply).value) &&
      HeaderOf(reply).value.seqNum + 1 < U32_LIMIT
    ensures r.Connected? ==>
      r.session == reply.datagram.peer &&
      Unpack(r.finalAck) == Some(Header(clientIsn + 1, HeaderOf(reply).value.seqNum + 1, ACK))
  {
    match reply
    case TimedOut => Failed(NoReply)
    case Received(d) =>
      match Unpack(d.bytes)
      case None => Failed(MalformedReply)
      case Some(h) =>
        if ValidSynAck(clientIsn, h) then
          match PackFields(clientIsn + 1, h.seqNum + 1, ACK)
          case None => Failed(AckOverflow)
          case Some(ack) => Connected(ack, d.peer)
        else
          Failed(BadSynAck)
  }

  /** Step 1 of the teardown: FIN(seq = client_fsn, ack = 0). */
  function FinSegment(clientFsn: u32): (r: seq<byte>)
    ensures Unpack(r) == Some(Header(clientFsn, 0, FIN))
  {
    UnpackPack(Header(clientFsn, 0, FIN));
    Pack(Header(clientFsn, 0, FIN))
  }

  /** The check of udpclient.py:151. */
  predicate ValidFinAck(clientFsn: int, h: Header)
  {
    h.kind == FIN_ACK && h.ackNum == clientFsn + 1
  }

  /** How the client's teardown ends: the socket is closed either way, and
      `acknowledged` says whether the reply was the expected FIN_ACK; a reply
      that is not 12 bytes makes struct.unpack raise instead. */
  datatype Teardown = Closed(acknowledged: bool) | MalformedFinAck

  /** udpclient.py:144-158. */
  function ClientTeardown(clientFsn: int, reply: Recv): (r: Teardown)
    ensures r == MalformedFinAck <==> reply.Received? && |reply.datagram.bytes| != HEADER_LEN
    ensures r == Closed(true) <==> HeaderOf(reply).Some? && ValidFinAck(clientFsn, HeaderOf(reply).value)
  {
    match reply
    case TimedOut => Closed(false)
    case Received(d) =>
      match Unpack(d.bytes)
      case None => MalformedFinAck
      case Some(h) => Closed(ValidFinAck(clientFsn, h))
  }

  // ---------------------------------------------------------------- server

  /** Step 2 of the server (udpserver.py:29-38): SYN_ACK(seq = server_isn,
      ack = client_isn + 1), built from the SYN the dispatcher handed over.
      struct.pack raises (None here) when client_isn + 1 does not fit. */
  function ServerSynAck(syn: seq<byte>, serverIsn: int): (r: Option<seq<byte>>)
    requires |syn| == HEADER_LEN && ServerIsn(serverIsn)
    ensures r.Some? <==> Unpack(syn).value.seqNum + 1 < U32_LIMIT
    ensures r.Some? ==> Unpack(r.value) == Some(Header(serverIsn, Unpack(syn).value.seqNum + 1, SYN_ACK))
  {
    PackFields(serverIsn, Unpack(syn).value.seqNum + 1, SYN_ACK)
  }

  /** The check of udpserver.py:50; the sequence number of the ACK and the
      address it came from are not looked at. */
  predicate ValidFinalAck(serverIsn: int, h: Header)
  {
    h.kind == ACK && h.ackNum == serverIsn + 1
  }

  /** How the server's handshake ends: `Rejected` closes the session socket
      and returns (timeout or failed check); `Malformed` is a `struct.error`
      that ends the session thread. */
  datatype Accept = Established | Rejected | Malformed

  /** Step 3 of the server (udpserver.py:43-59). */
  function ServerAccept(serverIsn: int, reply: Recv): (r: Accept)
    ensures r == Established <==> HeaderOf(reply).Some? && ValidFinalAck(serverIsn, HeaderOf(reply).value)
    ensures r == Malformed <==> reply.Received? && |reply.datagram.bytes| != HEADER_LEN
  {
    match reply
    case TimedOut => Rejected
    case Received(d) =>
      match Unpack(d.bytes)
      case None => Malformed
      case Some(h) => if ValidFinalAck(serverIsn, h) then Established else Rejected
  }

  /** The server's answer to FIN(seq = S) (udpserver.py:93-97):
      FIN_ACK(seq = server_fsn, ack = S + 1); struct.pack raises (None here)
      when S + 1 does not fit in 32 bits. */
  function ServerFinAck(finSeq: u32, serverFsn: int): (r: Option<seq<byte>>)
    requires ServerFsn(serverFsn)
    ensures r.Some? <==> finSeq + 1 < U32_LIMIT
    ensures r.Some? ==> Unpack(r.value) == Some(Header(serverFsn, finSeq + 1, FIN_ACK))
  {
    PackFields(serverFsn, finSeq + 1, FIN_ACK)
  }

  // ---------------------------------------------------------------- both sides

  /** When the two programs talk to each other without loss, the handshake
      succeeds on both sides: the client accepts the server's SYN_ACK, sends
      its ACK to the session address, and the server accepts that ACK. */
  lemma HandshakeCompletes(clientIsn: int, serverIsn: int, client: Addr, session: Addr)
    requires ClientIsn(clientIsn) && ServerIsn(serverIsn)
    ensures ServerSynAck(SynSegment(clientIsn), serverIsn).Some?
    ensures var synAck := ServerSynAck(SynSegment(clientIsn), serverIsn).value;
      var c := ClientConnect(clientIsn, Received(Datagram(synAck, session)));
      c.Connected? && c.session == session &&
      ServerAccept(serverIsn, Received(Datagram(c.finalAck, client))) == Established
  {
  }

  /** A client whose SYN_ACK carries the wrong acknowledgment number never
      connects. */
  lemma WrongSynAckFails(clientIsn: int, h: Header, session: Addr)
    requires ClientIsn(clientIsn) && h.kind == SYN_ACK && h.ackNum != clientIsn + 1
    ensures ClientConnect(clientIsn, Received(Datagram(Pack(h), session))) == Failed(BadSynAck)
  {
    UnpackPack(h);
  }

  /** The server's FIN_ACK to the client's FIN is accepted by the client. */
  lemma TeardownCompletes(clientFsn: u32, serverFsn: int, session: Addr)
    requires ServerFsn(serverFsn) && clientFsn + 1 < U32_LIMIT
    ensures ServerFinAck(Unpack(FinSegment(clientFsn)).value.seqNum, serverFsn).Some?
    ensures var finAck := ServerFinAck(Unpack(FinSegment(clientFsn)).value.seqNum, serverFsn).value;
      ClientTeardown(clientFsn, Received(Datagram(finAck, session))) == Closed(true)
  {
  }
}
