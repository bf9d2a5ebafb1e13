/** The two programs run against each other over a network that loses
    nothing and keeps order: in each pass of the client's outer loop, the
    oldest DATA segment in flight reaches the server session and its
    DATA_ACK reaches the client before the client's receive times out. */
module Lockstep {
  import opened Wire
  import opened Sender
  import opened Receiver
  import opened Handshake
  import opened Server

  /** Transfer of `payloads` through a `GbnSender` and a `GbnReceiver` in
      lockstep, with no loss and no receive timing out. After each DATA_ACK
      the receiver's expected_seq_num equals the sender's base; nothing is
      retransmitted, so every packet is sent exactly once, and the receiver
      ends having accepted all of them, in order. */
  method LosslessTransfer(payloads: seq<seq<byte>>) returns (sender: GbnSender, receiver: GbnReceiver)
    requires |payloads| < U32_LIMIT
    ensures fresh(sender) && fresh(receiver)
    ensures sender.Valid() && sender.payloads == payloads && receiver.Valid()
    ensures sender.base == sender.nextSeqNum == |payloads|
    ensures sender.packetsSentTotal == |payloads| && sender.retransmissions == 0
    ensures forall i :: i in sender.sendTimes <==> 0 <= i < |payloads|
    ensures receiver.expected == |payloads|
  {
    sender := new GbnSender(payloads);
    receiver := new GbnReceiver();
    // DATA segments sent and not yet delivered, oldest first
    var inFlight: seq<seq<byte>> := [];
    while sender.base < |payloads|
      invariant fresh(sender) && fresh(receiver)
      invariant sender.Valid() && receiver.Valid() && sender.payloads == payloads
      invariant receiver.expected == sender.base
      invariant sender.retransmissions == 0
      invariant inFlight == sender.DataSegments(sender.base, sender.nextSeqNum)
      decreases |payloads| - sender.base
    {
      var sentBefore := sender.nextSeqNum;
      var out := sender.FillWindow();
      sender.DataSegmentsSplit(sender.base, sentBefore, sender.nextSeqNum);
      inFlight := DeliverOldest(sender, receiver, inFlight + out);
    }
    TransferComplete(sender.State(), |payloads|);
  }

  // ------------------------------------------------------------ the same run on values

  /** The DATA_ACKs for lo, ..., hi - 1, in order, sent to `to`. */
  function AckDatagrams(lo: int, hi: int, to: Addr): (r: seq<Datagram>)
    requires 0 <= lo <= hi <= U32_LIMIT
  {
    seq(hi - lo, k requires 0 <= k < hi - lo => Datagram(DataAck(lo + k), to))
  }

  /** The first DATA_ACK of a run, and the rest of the run. */
  lemma AckDatagramsPop(lo: int, hi: int, to: Addr)
    requires 0 <= lo < hi <= U32_LIMIT
    ensures AckDatagrams(lo, hi, to) == [Datagram(DataAck(lo), to)] + AckDatagrams(lo + 1, hi, to)
  {
    var a, b := AckDatagrams(lo, hi, to), AckDatagrams(lo + 1, hi, to);
    forall k | 0 <= k < |a| ensures a[k] == ([Datagram(DataAck(lo), to)] + b)[k] {
      if k > 0 { assert a[k] == b[k - 1]; }
    }
  }

  /** The same DATA_ACKs as the client's receive results, each in time. */
  function AckReplies(lo: int, hi: int, from: Addr): (r: seq<Recv>)
    requires 0 <= lo <= hi <= U32_LIMIT
  {
    seq(hi - lo, k requires 0 <= k < hi - lo => Received(Datagram(DataAck(lo + k), from)))
  }

  /** The DATA segments for lo, ..., |payloads| - 1, in order, arriving at the
      session from `client`, none of them dropped. */
  function DataArrivals(lo: int, payloads: seq<seq<byte>>, client: Addr): (r: seq<Arrival>)
    requires 0 <= lo <= |payloads| < U32_LIMIT
  {
    seq(|payloads| - lo, k requires 0 <= k < |payloads| - lo =>
      Arrival(Received(Datagram(Segment(Header(lo + k, 0, DATA), payloads[lo + k]), client)), false, SERVER_FSN_MIN))
  }

  /** `replies` are the DATA_ACKs for `base`, `base` + 1, ..., one per receive. */
  predicate AcksFrom(replies: seq<Recv>, base: int)
  {
    forall k :: 0 <= k < |replies| ==>
      0 <= base + k < U32_LIMIT && replies[k].Received? && replies[k].datagram.bytes == DataAck(base + k)
  }

  /** Past the first DATA_ACK, the rest start one sequence number later. */
  lemma AcksFromTail(replies: seq<Recv>, base: int)
    requires AcksFrom(replies, base) && 0 < |replies|
    ensures AcksFrom(replies[1..], base + 1)
  {
    var tail := replies[1..];
    forall k | 0 <= k < |tail|
      ensures 0 <= base + 1 + k < U32_LIMIT && tail[k].Received? && tail[k].datagram.bytes == DataAck(base + 1 + k)
    {
      assert tail[k] == replies[k + 1] && base + 1 + k == base + (k + 1);
    }
    assert AcksFrom(tail, base + 1);
  }

  /** Client side: when every reply is the DATA_ACK for the current base,
      the transfer loop completes without a single retransmission. */
  lemma {:induction false} AckedInOrder(w: Window, total: nat, replies: seq<Recv>)
    requires Invariant(w, total) && AcksFrom(replies, w.base) && w.base + |replies| == total
    ensures var r := TransferRun(w, total, replies);
      r.1 == AllAcked && r.0.retransmissions == w.retransmissions
    decreases |replies|
  {
    if w.base < total {
      var next := Fill(w, total).(base := w.base + 1);
      AckOfBaseSlidesFilled(w, total, replies[0]);
      AckOfBaseStep(w, total, replies);
      AcksFromTail(replies, w.base);
      AckedInOrder(next, total, replies[1..]);
    } else {
      TransferRunDone(w, total, replies);
    }
  }

  /** One pass of the outer loop on in-order DATA_ACKs: the window is filled
      and the ACK for its base slides it by one, without a retransmission. */
  lemma AckOfBaseSlidesFilled(w: Window, total: nat, reply: Recv)
    requires Invariant(w, total) && w.base < total && w.base < U32_LIMIT
    requires reply.Received? && reply.datagram.bytes == DataAck(w.base)
    ensures var f := Fill(w, total);
      Acknowledge(f, total, reply.datagram.bytes) == Accepted(f.(base := w.base + 1))
    ensures var next := Fill(w, total).(base := w.base + 1);
      Invariant(next, total) && next.retransmissions == w.retransmissions
  {
    AckOfBaseSlides(Fill(w, total), total, DataAck(w.base));
  }

  /** The same pass, seen from the transfer loop: it goes on from the slid
      window with the remaining receive results. */
  lemma AckOfBaseStep(w: Window, total: nat, replies: seq<Recv>)
    requires Invariant(w, total) && w.base < total && w.base < U32_LIMIT && 0 < |replies|
    requires replies[0].Received? && replies[0].datagram.bytes == DataAck(w.base)
    ensures TransferRun(w, total, replies) == TransferRun(Fill(w, total).(base := w.base + 1), total, replies[1..])
  {
    AckOfBaseSlidesFilled(w, total, replies[0]);
    TransferRunAccepts(w, total, replies);
  }

  /** From the start of the transfer, in-order DATA_ACKs leave the sender
      with every packet sent once and acknowledged. */
  lemma LosslessRun(total: nat, server: Addr)
    requires total < U32_LIMIT
    ensures var r := TransferRun(Initial, total, AckReplies(0, total, server));
      r.1 == AllAcked && r.0.base == r.0.next == r.0.sentTotal == total && r.0.retransmissions == 0 &&
      forall i :: i in r.0.sent <==> 0 <= i < total
  {
    assert AcksFrom(AckReplies(0, total, server), 0);
    AckedInOrder(Initial, total, AckReplies(0, total, server));
    TransferComplete(TransferRun(Initial, total, AckReplies(0, total, server)).0, total);
  }

  /** ... and the client sends every packet exactly once, in sequence order. */
  lemma LosslessSends(total: nat, server: Addr)
    requires total < U32_LIMIT
    ensures TransferSends(Initial, total, AckReplies(0, total, server)) == Span(0, total)
  {
    assert AcksFrom(AckReplies(0, total, server), 0);
    AckedInOrderSends(Initial, total, AckReplies(0, total, server));
  }

  /** Client side, for the packets sent: with every reply the DATA_ACK for
      the current base, each pass sends only packets never sent before, so
      the loop sends the rest of the transfer once, in order. */
  lemma {:induction false} AckedInOrderSends(w: Window, total: nat, replies: seq<Recv>)
    requires Invariant(w, total) && AcksFrom(replies, w.base) && w.base + |replies| == total
    ensures TransferSends(w, total, replies) == Span(w.next, total)
    decreases |replies|
  {
    if w.base < total {
      var next := Fill(w, total).(base := w.base + 1);
      assert replies[0].Received? && w.base < U32_LIMIT;
      FilledSlides(w, total);
      AcksFromTail(replies, w.base);
      AckedInOrderSends(next, total, replies[1..]);
      AckOfBaseSends(w, total, replies);
    } else {
      TransferSendsDone(w, total, replies);
    }
  }

  /** A filled window may slide by one while packets remain unacknowledged. */
  lemma FilledSlides(w: Window, total: nat)
    requires Invariant(w, total) && w.base < total
    ensures Invariant(Fill(w, total).(base := w.base + 1), total)
  {
  }

  /** The inductive step for the sends: the new packets of the fill, then
      the rest of the transfer from the slid window, make the rest of the
      transfer from the old one. */
  lemma AckOfBaseSends(w: Window, total: nat, replies: seq<Recv>)
    requires Invariant(w, total) && w.base < total && w.base < U32_LIMIT && 0 < |replies|
    requires replies[0].Received? && replies[0].datagram.bytes == DataAck(w.base)
    requires TransferSends(Fill(w, total).(base := w.base + 1), total, replies[1..]) == Span(Fill(w, total).next, total)
    ensures TransferSends(w, total, replies) == Span(w.next, total)
  {
    AckOfBaseSlidesFilled(w, total, replies[0]);
    TransferPassCases(w, total, replies);
    SpanSplit(w.next, Fill(w, total).next, total);
  }

  /** Consecutive spans of sequence numbers concatenate. */
  lemma SpanSplit(lo: int, mid: int, hi: int)
    requires lo <= mid <= hi
    ensures Span(lo, mid) + Span(mid, hi) == Span(lo, hi)
  {
    assert forall k :: 0 <= k < hi - lo ==> (Span(lo, mid) + Span(mid, hi))[k] == lo + k;
  }

  /** The first of the in-order arrivals is accepted and acknowledged. */
  lemma SegmentAccepted(e: int, payloads: seq<seq<byte>>, client: Addr) returns (step: Step)
    requires 0 <= e < |payloads| < U32_LIMIT
    ensures var arrivals := DataArrivals(e, payloads, client);
      0 < |arrivals| && arrivals[0].recv.Received? && arrivals[0].recv.datagram.peer == client &&
      arrivals[1..] == DataArrivals(e + 1, payloads, client) &&
      step == Receive(e, arrivals[0].dropped, arrivals[0].recv.datagram.bytes, arrivals[0].serverFsn)
    ensures step == Step(e + 1, Some(DataAck(e)), Continue)
  {
    var arrivals := DataArrivals(e, payloads, client);
    var segment := Segment(Header(e, 0, DATA), payloads[e]);
    assert arrivals[0] == Arrival(Received(Datagram(segment, client)), false, SERVER_FSN_MIN);
    assert arrivals[1..] == DataArrivals(e + 1, payloads, client);
    SegmentParts(Header(e, 0, DATA), payloads[e]);
    InOrderAccepted(e, segment, SERVER_FSN_MIN);
    step := Receive(e, false, segment, SERVER_FSN_MIN);
  }

  /** Server side: DATA segments arriving in order and undropped are all
      accepted, and the session answers each with its own DATA_ACK, which
      are exactly the replies `AckedInOrder` feeds the client. */
  lemma {:induction false} InOrderSession(e: int, payloads: seq<seq<byte>>, client: Addr)
    requires 0 <= e <= |payloads| < U32_LIMIT
    ensures SessionRun(e, DataArrivals(e, payloads, client)) ==
      Session(|payloads|, AckDatagrams(e, |payloads|, client), ArrivalsExhausted)
    decreases |payloads| - e
  {
    var arrivals := DataArrivals(e, payloads, client);
    if e < |payloads| {
      var step := SegmentAccepted(e, payloads, client);
      InOrderSession(e + 1, payloads, client);
      SessionRunContinues(e, arrivals, step);
      AckDatagramsPop(e, |payloads|, client);
    } else {
      assert arrivals == [];
      assert AckDatagrams(e, |payloads|, client) == [];
    }
  }

  /** One exchange at the client's receive point: the oldest segment in
      flight reaches the session, which accepts it, and its DATA_ACK reaches
      the client, which slides its window by one. Returns what is still in
      flight. */
  method DeliverOldest(sender: GbnSender, receiver: GbnReceiver, inFlight: seq<seq<byte>>)
    returns (rest: seq<seq<byte>>)
    requires sender.Valid() && receiver.Valid() && Ready(sender.State(), sender.Total())
    requires receiver.expected == sender.base < sender.nextSeqNum
    requires inFlight == sender.DataSegments(sender.base, sender.nextSeqNum)
    modifies sender, receiver
    ensures sender.Valid() && receiver.Valid()
    ensures sender.State() == old(sender.State()).(base := old(sender.base) + 1)
    ensures receiver.expected == sender.base
    ensures rest == sender.DataSegments(sender.base, sender.nextSeqNum)
  {
    var base := sender.base;
    sender.DataSegmentsPop(base, sender.nextSeqNum);
    var segment := inFlight[0];
    sender.DataSegmentParts(base);
    InOrderAccepted(receiver.expected, segment, SERVER_FSN_MIN);
    var reply, verdict := receiver.OnDatagram(false, segment, SERVER_FSN_MIN);
    AckOfBaseSlides(sender.State(), sender.Total(), DataAck(base));
    var fault := sender.OnReply(reply.value);
    rest := inFlight[1..];
  }
}
