/** The Go-Back-N receiver of one server session (udpserver.py:61-106):
    in-order DATA is acknowledged and counted, anything else is discarded
    with a repeat of the last acknowledgment, and FIN ends the session. */
module Receiver {
  import opened Wire
  import opened Handshake

  /** What the session loop does after handling one datagram: go on,
      leave after answering a FIN, or leave because an exception other than
      a timeout (here always `struct.error`) reached the handler at
      udpserver.py:104. */
  datatype Verdict = Continue | Finished | Errored

  datatype Step = Step(expected: int, reply: Option<seq<byte>>, verdict: Verdict)

  /** The datagram is the DATA segment the receiver is waiting for. */
  predicate InOrder(expected: int, message: seq<byte>)
  {
    UnpackHead(message).Some? && UnpackHead(message).value.kind == DATA &&
    UnpackHead(message).value.seqNum == expected
  }

  /** The DATA_ACK carrying `ack`. */
  function DataAck(ack: u32): (r: seq<byte>)
    ensures Unpack(r) == Some(Header(0, ack, DATA_ACK))
  {
    UnpackPack(Header(0, ack, DATA_ACK));
    Pack(Header(0, ack, DATA_ACK))
  }

  /** One pass of the session loop on a datagram that arrived, given the
      loss draw `dropped` (random.random() < 0.3) and the FIN sequence draw.
      `expected` never exceeds 2^32: it only grows past a u32 sequence number. */
  function Receive(expected: int, dropped: bool, message: seq<byte>, serverFsn: int): (r: Step)
    requires 0 <= expected <= U32_LIMIT && ServerFsn(serverFsn)
    ensures 0 <= r.expected <= U32_LIMIT
    ensures r.expected == expected + 1 <==> !dropped && InOrder(expected, message)
    ensures r.expected != expected + 1 ==> r.expected == expected
    ensures r.reply.Some? ==> |r.reply.value| == HEADER_LEN
    // the reply to DATA always acknowledges the last in-order segment
    ensures r.reply.Some? && Unpack(r.reply.value).value.kind == DATA_ACK ==>
      Unpack(r.reply.value).value.ackNum == r.expected - 1
    ensures dropped ==> r == Step(expected, None, Continue)
    ensures r.verdict == Errored <==>
      !dropped && (|message| < HEADER_LEN ||
                   (UnpackHead(message).value.kind == FIN && UnpackHead(message).value.seqNum + 1 == U32_LIMIT))
    ensures r.verdict == Finished <==>
      !dropped && UnpackHead(message).Some? && UnpackHead(message).value.kind == FIN &&
      UnpackHead(message).value.seqNum + 1 < U32_LIMIT
    ensures r.verdict == Finished ==>
      r.reply == ServerFinAck(UnpackHead(message).value.seqNum, serverFsn) && r.expected == expected
  {
    if dropped then Step(expected, None, Continue)
    else
      match UnpackHead(message)
      case None => Step(expected, None, Errored)
      case Some(h) =>
        if h.kind == DATA then
          if h.seqNum == expected then
            Step(expected + 1, Some(DataAck(expected)), Continue)
          else if expected - 1 >= 0 then
            Step(expected, Some(DataAck(expected - 1)), Continue)
          else
            Step(expected, None, Continue)
        else if h.kind == FIN then
          match ServerFinAck(h.seqNum, serverFsn)
          case None => Step(expected, None, Errored)
          case Some(finAck) => Step(expected, Some(finAck), Finished)
        else
          Step(expected, None, Continue)
  }

  /** Out-of-order or duplicate DATA leaves the counter alone and repeats
      the last acknowledgment, or stays silent when nothing was accepted yet. */
  lemma OutOfOrderDiscarded(expected: int, message: seq<byte>, serverFsn: int)
    requires 0 <= expected <= U32_LIMIT && ServerFsn(serverFsn)
    requires UnpackHead(message).Some? && UnpackHead(message).value.kind == DATA
    requires UnpackHead(message).value.seqNum != expected
    ensures var r := Receive(expected, false, message, serverFsn);
      r.expected == expected && r.verdict == Continue &&
      r.reply == (if expected >= 1 then Some(DataAck(expected - 1)) else None)
  {
  }

  /** In-order DATA is acknowledged with its own sequence number. */
  lemma InOrderAccepted(expected: int, message: seq<byte>, serverFsn: int)
    requires 0 <= expected <= U32_LIMIT && ServerFsn(serverFsn)
    requires InOrder(expected, message)
    ensures var r := Receive(expected, false, message, serverFsn);
      r.expected == expected + 1 && r.verdict == Continue &&
      r.reply == Some(DataAck(expected))
  {
  }

  /** Segments of any type other than DATA and FIN change nothing. */
  lemma OtherTypesIgnored(expected: int, message: seq<byte>, serverFsn: int)
    requires 0 <= expected <= U32_LIMIT && ServerFsn(serverFsn)
    requires UnpackHead(message).Some?
    requires UnpackHead(message).value.kind != DATA && UnpackHead(message).value.kind != FIN
    ensures Receive(expected, false, message, serverFsn) == Step(expected, None, Continue)
  {
  }

  /** The receiving half of a session, updated in place. */
  class GbnReceiver {
    /** expected_seq_num. */
    var expected: int
    /** The sequence numbers of the DATA segments accepted, in order. */
    ghost var accepted: seq<int>

    /** Exactly the segments 0, 1, ..., expected - 1 have been accepted, in order. */
    ghost predicate Valid()
      reads this
    {
      0 <= expected <= U32_LIMIT && |accepted| == expected &&
      forall i :: 0 <= i < |accepted| ==> accepted[i] == i
    }

    constructor ()
      ensures Valid() && expected == 0 && accepted == []
    {
      expected := 0;
      accepted := [];
    }

    /** udpserver.py:67-99 for a datagram that arrived. */
    method OnDatagram(dropped: bool, message: seq<byte>, serverFsn: int)
      returns (reply: Option<seq<byte>>, verdict: Verdict)
      requires Valid() && ServerFsn(serverFsn)
      modifies this
      ensures Valid() && old(expected) <= expected
      ensures Step(expected, reply, verdict) == Receive(old(expected), dropped, message, serverFsn)
      ensures accepted == if expected == old(expected) then old(accepted) else old(accepted) + [old(expected)]
    {
      if dropped {
        return None, Continue;
      }
      var head := UnpackHead(message);
      if head.None? {
        return None, Errored;
      }
      var h := head.value;
      reply, verdict := None, Continue;
      if h.kind == DATA {
        if h.seqNum == expected {
          reply := Some(DataAck(expected));
          accepted := accepted + [h.seqNum];
          expected := expected + 1;
        } else {
          var lastAck := expected - 1;
          if lastAck >= 0 {
            reply := Some(DataAck(lastAck));
          }
        }
      } else if h.kind == FIN {
        reply := ServerFinAck(h.seqNum, serverFsn);
        verdict := if reply.Some? then Finished else Errored;
      }
    }
  }
}
