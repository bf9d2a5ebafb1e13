/** The client program (udpclient.py) as one run: handshake, Go-Back-N
    transfer, teardown. Each `recvfrom` result is an input: one for the
    SYN_ACK, one per pass of the transfer loop, one for the FIN_ACK. */
module Client {
  import opened Wire
  import opened Sender
  import opened Handshake

  datatype Outcome =
    /** No connection; nothing but the SYN was sent. */
    | HandshakeFailed(why: ConnectFailure)
    /** The transfer loop raised (udpclient.py:106 or 112). */
    | TransferCrashed(fault: Fault)
    /** The supplied receive results ran out before every packet was
        acknowledged (the source would keep looping). */
    | Unfinished
    /** Every packet was acknowledged and the FIN was sent. */
    | Completed(teardown: Teardown)

  /** What the client's run comes to once connected, given how the transfer
      loop ended: after the last acknowledgment the FIN carries seq = base =
      TOTAL_PACKETS and its reply decides the teardown. */
  function AfterTransfer(end: TransferEnd, total: nat, finAckReply: Recv): (r: Outcome)
    ensures !r.HandshakeFailed?
  {
    match end
    case AllAcked => Completed(ClientTeardown(total, finAckReply))
    case TransferFault(fault) => TransferCrashed(fault)
    case RepliesExhausted => Unfinished
  }

  /** A DATA segment, as the receiver reads it (header first, then payload). */
  predicate IsData(b: seq<byte>)
  {
    UnpackHead(b).Some? && UnpackHead(b).value.kind == DATA
  }

  /** Every datagram in `ds` is a DATA segment addressed to `to`. */
  predicate AllDataTo(ds: seq<Datagram>, to: Addr)
  {
    forall k :: 0 <= k < |ds| ==> ds[k].peer == to && IsData(ds[k].bytes)
  }

  /** The whole client run for `payloads` (one data unit per packet). */
  method RunClient(server: Addr, clientIsn: int, payloads: seq<seq<byte>>,
                   synAckReply: Recv, transferReplies: seq<Recv>, finAckReply: Recv)
    returns (sent: seq<Datagram>, outcome: Outcome, packetsSentTotal: int, retransmissions: int)
    requires ClientIsn(clientIsn) && |payloads| < U32_LIMIT
    ensures 0 <= retransmissions <= packetsSentTotal
    ensures 0 < |sent| && sent[0] == Datagram(SynSegment(clientIsn), server)
    ensures outcome.HandshakeFailed? <==> ClientConnect(clientIsn, synAckReply).Failed?
    ensures outcome.HandshakeFailed? ==>
      outcome.why == ClientConnect(clientIsn, synAckReply).why && |sent| == 1
    // after the handshake every send goes to the session address: the final
    // ACK, then one DATA segment per counted send, then (at the end) the FIN
    ensures !outcome.HandshakeFailed? ==>
      var c := ClientConnect(clientIsn, synAckReply);
      2 + packetsSentTotal <= |sent| <= 3 + packetsSentTotal &&
      sent[1] == Datagram(c.finalAck, c.session) &&
      AllDataTo(sent[2..2 + packetsSentTotal], c.session) &&
      SendsData(sent[2..2 + packetsSentTotal], payloads, TransferSends(Initial, |payloads|, transferReplies), c.session)
    // a crashed or unfinished transfer sends nothing after its DATA packets
    ensures !outcome.HandshakeFailed? && !outcome.Completed? ==> |sent| == 2 + packetsSentTotal
    // once connected, the outcome and the counters are those of the transfer
    // loop run on the receive results
    ensures !outcome.HandshakeFailed? ==>
      var t := TransferRun(Initial, |payloads|, transferReplies);
      outcome == AfterTransfer(t.1, |payloads|, finAckReply) &&
      packetsSentTotal == t.0.sentTotal && retransmissions == t.0.retransmissions
    ensures outcome.Completed? ==>
      packetsSentTotal == |payloads| + retransmissions &&
      |sent| == 3 + packetsSentTotal &&
      sent[|sent| - 1] == Datagram(FinSegment(|payloads|), ClientConnect(clientIsn, synAckReply).session) &&
      outcome.teardown == ClientTeardown(|payloads|, finAckReply)
  {
    sent := [Datagram(SynSegment(clientIsn), server)];
    var connect := ClientConnect(clientIsn, synAckReply);
    if connect.Failed? {
      outcome := HandshakeFailed(connect.why);
      packetsSentTotal, retransmissions := 0, 0;
    } else {
      var rest;
      rest, outcome, packetsSentTotal, retransmissions :=
        TransferAndClose(connect.session, payloads, transferReplies, finAckReply);
      var ack := Datagram(connect.finalAck, connect.session);
      AfterHandshake(sent[0], ack, rest, packetsSentTotal);
      sent := [sent[0], ack] + rest;
    }
  }

  /** Where the datagrams after the handshake sit in the whole run. */
  lemma AfterHandshake(syn: Datagram, ack: Datagram, rest: seq<Datagram>, n: int)
    requires 0 <= n <= |rest|
    ensures |[syn, ack] + rest| == 2 + |rest|
    ensures ([syn, ack] + rest)[0] == syn && ([syn, ack] + rest)[1] == ack
    ensures ([syn, ack] + rest)[2..2 + n] == rest[..n]
    ensures |rest| > 0 ==> ([syn, ack] + rest)[|rest| + 1] == rest[|rest| - 1]
  {
  }

  /** Everything after the handshake (udpclient.py:69-158): the transfer,
      then, once every packet is acknowledged, FIN(seq = base) and its reply. */
  method TransferAndClose(session: Addr, payloads: seq<seq<byte>>, transferReplies: seq<Recv>, finAckReply: Recv)
    returns (sent: seq<Datagram>, outcome: Outcome, packetsSentTotal: int, retransmissions: int)
    requires |payloads| < U32_LIMIT
    ensures 0 <= retransmissions <= packetsSentTotal <= |sent| <= packetsSentTotal + 1
    ensures !outcome.HandshakeFailed?
    ensures AllDataTo(sent[..packetsSentTotal], session)
    ensures SendsData(sent[..packetsSentTotal], payloads, TransferSends(Initial, |payloads|, transferReplies), session)
    ensures forall k :: 0 <= k < |sent| ==> sent[k].peer == session
    // nothing follows the DATA packets unless every packet was acknowledged
    ensures !outcome.Completed? ==> |sent| == packetsSentTotal
    ensures var t := TransferRun(Initial, |payloads|, transferReplies);
      outcome == AfterTransfer(t.1, |payloads|, finAckReply) &&
      packetsSentTotal == t.0.sentTotal && retransmissions == t.0.retransmissions
    ensures outcome.Completed? ==>
      packetsSentTotal == |payloads| + retransmissions &&
      |sent| == packetsSentTotal + 1 &&
      sent[packetsSentTotal] == Datagram(FinSegment(|payloads|), session) &&
      outcome.teardown == ClientTeardown(|payloads|, finAckReply)
  {
    var sender := new GbnSender(payloads);
    var dataSent, end := Transfer(sender, session, transferReplies);
    sent := dataSent;
    packetsSentTotal, retransmissions := sender.packetsSentTotal, sender.retransmissions;
    if end == AllAcked {
      TransferComplete(sender.State(), |payloads|);
      var clientFsn := sender.base;
      sent := sent + [Datagram(FinSegment(clientFsn), session)];
      outcome := Completed(ClientTeardown(clientFsn, finAckReply));
    } else {
      outcome := if end.RepliesExhausted? then Unfinished else TransferCrashed(end.fault);
    }
    assert outcome == AfterTransfer(end, |payloads|, finAckReply);
    assert sent[..packetsSentTotal] == dataSent;
  }

  /** The transfer loop (udpclient.py:88-131): fill the window, then handle
      one receive result, until `base` reaches the packet count. Returns the
      DATA datagrams sent, in order. */
  method Transfer(sender: GbnSender, session: Addr, replies: seq<Recv>)
    returns (dataSent: seq<Datagram>, end: TransferEnd)
    requires sender.Valid() && sender.State() == Initial
    modifies sender
    ensures sender.Valid()
    ensures (sender.State(), end) == TransferRun(Initial, sender.Total(), replies)
    ensures |dataSent| == sender.packetsSentTotal && AllDataTo(dataSent, session)
    // exactly the packets the loop sends, in order: after a timeout the
    // window is sent again from base
    ensures SendsData(dataSent, sender.payloads, TransferSends(Initial, sender.Total(), replies), session)
  {
    dataSent, end := [], AllAcked;
    ghost var sends: seq<int> := [];
    ghost var run, allSends := TransferRun(Initial, sender.Total(), replies), TransferSends(Initial, sender.Total(), replies);
    var i := 0;
    while sender.base < sender.Total()
      invariant sender.Valid()
      invariant 0 <= i <= |replies|
      invariant TransferRun(sender.State(), sender.Total(), replies[i..]) == run
      invariant sends + TransferSends(sender.State(), sender.Total(), replies[i..]) == allSends
      invariant |dataSent| == sender.packetsSentTotal && SendsData(dataSent, sender.payloads, sends, session)
      decreases |replies| - i
    {
      var stop;
      dataSent, stop, sends := TransferPass(sender, session, replies[i..], dataSent, sends);
      if stop.Some? {
        end := stop.value;
        break;
      }
      assert replies[i..][1..] == replies[i + 1..];
      i := i + 1;
    }
    if end == AllAcked {
      TransferRunDone(sender.State(), sender.Total(), replies[i..]);
      assert sends + [] == sends;
    }
    SendsDataIsData(dataSent, sender.payloads, sends, session);
  }

  /** One pass of the outer loop (udpclient.py:90-131): fill the window and
      send the new packets after `dataSent`, then handle the next receive
      result if there is one. `stop` is how the loop ends when this pass ends
      it; otherwise the rest of the run goes on from the new state with the
      remaining results, and sends what it would have sent from the old one. */
  method TransferPass(sender: GbnSender, session: Addr, rest: seq<Recv>, dataSent: seq<Datagram>, ghost sends: seq<int>)
    returns (dataSent': seq<Datagram>, stop: Option<TransferEnd>, ghost sends': seq<int>)
    requires sender.Valid() && sender.base < sender.Total()
    requires |dataSent| == sender.packetsSentTotal && SendsData(dataSent, sender.payloads, sends, session)
    modifies sender
    ensures sender.Valid()
    ensures |dataSent'| == sender.packetsSentTotal && SendsData(dataSent', sender.payloads, sends', session)
    ensures stop.Some? ==>
      (sender.State(), stop.value) == TransferRun(old(sender.State()), sender.Total(), rest) &&
      sends' == sends + TransferSends(old(sender.State()), sender.Total(), rest)
    ensures stop.None? ==>
      0 < |rest| &&
      TransferRun(sender.State(), sender.Total(), rest[1..]) == TransferRun(old(sender.State()), sender.Total(), rest) &&
      sends' + TransferSends(sender.State(), sender.Total(), rest[1..]) ==
        sends + TransferSends(old(sender.State()), sender.Total(), rest)
  {
    ghost var w := sender.State();
    TransferPassCases(w, sender.Total(), rest);
    dataSent', sends' := SendWindow(sender, session, dataSent, sends);
    ghost var sentNow := Span(w.next, sender.nextSeqNum);
    if rest == [] {
      return dataSent', Some(RepliesExhausted), sends';
    }
    if rest[0].TimedOut? {
      sender.OnTimeout();
      stop := None;
    } else {
      var fault := sender.OnReply(rest[0].datagram.bytes);
      stop := if fault.Some? then Some(TransferFault(fault.value)) else None;
    }
    if stop.None? {
      ConcatAssociates(sends, sentNow, TransferSends(sender.State(), sender.Total(), rest[1..]));
    }
  }

  /** The inner loop of a pass (udpclient.py:90-98): fill the window and
      send the new DATA packets, in order, after `dataSent`. */
  method SendWindow(sender: GbnSender, session: Addr, dataSent: seq<Datagram>, ghost sends: seq<int>)
    returns (dataSent': seq<Datagram>, ghost sends': seq<int>)
    requires sender.Valid()
    requires |dataSent| == sender.packetsSentTotal && SendsData(dataSent, sender.payloads, sends, session)
    modifies sender
    ensures sender.Valid() && sender.State() == Fill(old(sender.State()), sender.Total())
    ensures sends' == sends + Span(old(sender.nextSeqNum), sender.nextSeqNum)
    ensures |dataSent'| == sender.packetsSentTotal && SendsData(dataSent', sender.payloads, sends', session)
  {
    ghost var sentBefore := sender.nextSeqNum;
    var packets := sender.FillWindow();
    SendsDataSpan(sender, sentBefore, sender.nextSeqNum, session);
    SendsDataAppend(dataSent, SendAll(packets, session), sender.payloads, sends, Span(sentBefore, sender.nextSeqNum), session);
    dataSent', sends' := dataSent + SendAll(packets, session), sends + Span(sentBefore, sender.nextSeqNum);
  }

  /** `ds` are the DATA packets for the sequence numbers `ns`, in order: each
      the header (n, 0, DATA) followed by `payloads[n]`, sent to `to`. */
  predicate SendsData(ds: seq<Datagram>, payloads: seq<seq<byte>>, ns: seq<int>, to: Addr)
  {
    |payloads| < U32_LIMIT && |ds| == |ns| &&
    forall k :: 0 <= k < |ns| ==>
      0 <= ns[k] < |payloads| && ds[k] == Datagram(Segment(Header(ns[k], 0, DATA), payloads[ns[k]]), to)
  }

  /** Sent DATA packets are DATA datagrams for their address. */
  lemma SendsDataIsData(ds: seq<Datagram>, payloads: seq<seq<byte>>, ns: seq<int>, to: Addr)
    requires SendsData(ds, payloads, ns, to)
    ensures AllDataTo(ds, to)
  {
    forall k | 0 <= k < |ds| ensures ds[k].peer == to && IsData(ds[k].bytes) {
      SegmentParts(Header(ns[k], 0, DATA), payloads[ns[k]]);
    }
  }

  /** Sending the packets of one fill sends the DATA packets for its span. */
  lemma SendsDataSpan(sender: GbnSender, lo: int, hi: int, to: Addr)
    requires 0 <= lo <= hi <= sender.Total() < U32_LIMIT
    ensures SendsData(SendAll(sender.DataSegments(lo, hi), to), sender.payloads, Span(lo, hi), to)
  {
    sender.DataSegmentsAt(lo, hi);
  }

  /** Runs of sent DATA packets concatenate. */
  lemma SendsDataAppend(a: seq<Datagram>, b: seq<Datagram>, payloads: seq<seq<byte>>, na: seq<int>, nb: seq<int>, to: Addr)
    requires SendsData(a, payloads, na, to) && SendsData(b, payloads, nb, to)
    ensures SendsData(a + b, payloads, na + nb, to)
  {
    forall k | |na| <= k < |na| + |nb|
      ensures 0 <= (na + nb)[k] < |payloads| &&
        (a + b)[k] == Datagram(Segment(Header((na + nb)[k], 0, DATA), payloads[(na + nb)[k]]), to)
    {
      assert (a + b)[k] == b[k - |na|] && (na + nb)[k] == nb[k - |na|];
    }
  }

  lemma ConcatAssociates(a: seq<int>, b: seq<int>, c: seq<int>)
    ensures a + (b + c) == (a + b) + c
  {
  }

  /** `sendto(packet, addr)` for each packet, in order. */
  function SendAll(packets: seq<seq<byte>>, to: Addr): (r: seq<Datagram>)
  {
    seq(|packets|, k requires 0 <= k < |packets| => Datagram(packets[k], to))
  }
}
