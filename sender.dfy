/** The Go-Back-N sender of udpclient.py: filling the window, cumulative
    DATA_ACK handling and the timeout rollback. The pure functions on `Window`
    specify one step each; `GbnSender` is the client's mutable state and its
    methods are proved to take exactly those steps. */
module Sender {
  import opened Wire

  /** Fixed window capacity (udpclient.py, WINDOW_SIZE). */
  const WINDOW_SIZE: nat := 5

  function Min(a: int, b: int): (r: int) { if a <= b then a else b }

  /** The sender's counters and the key set of its `send_times` dictionary
      (the timestamps themselves belong to the RTT estimator, not modelled). */
  datatype Window = Window(base: int, next: int, sentTotal: int, retransmissions: int, sent: set<int>)

  /** The window invariant for a transfer of `total` packets: the window
      never exceeds its capacity, every send is either a first send or a
      retransmission, and exactly the sequence numbers below the high-water
      mark have a send time. */
  predicate Invariant(w: Window, total: nat)
  {
    && 0 <= w.base <= w.next <= w.base + WINDOW_SIZE
    && w.next <= total
    && 0 <= w.retransmissions
    && w.sentTotal == w.next + w.retransmissions
    && (forall i :: 0 <= i < w.next ==> i in w.sent)
    && (forall i :: i in w.sent ==> 0 <= i < total && i < w.base + WINDOW_SIZE)
  }

  /** The point where the client blocks in `recvfrom`: the inner loop has
      filled the window as far as capacity and the packet count allow. */
  predicate Ready(w: Window, total: nat): (r: bool)
    ensures r && Invariant(w, total) && w.base < total ==> w.base < w.next
  {
    w.next == Min(w.base + WINDOW_SIZE, total)
  }

  /** State before the transfer starts. */
  const Initial: Window := Window(0, 0, 0, 0, {})

  /** One pass of the inner loop: sequence number `next` is sent, given a
      send time and counted. */
  function SendOne(w: Window): (r: Window)
  {
    w.(next := w.next + 1, sentTotal := w.sentTotal + 1, sent := w.sent + {w.next})
  }

  /** The inner `while` loop: send sequence number `next` and count it,
      while the window has room and packets remain. */
  function Fill(w: Window, total: nat): (r: Window)
    requires Invariant(w, total)
    ensures Invariant(r, total) && Ready(r, total)
    ensures r.base == w.base && r.retransmissions == w.retransmissions && w.next <= r.next
    ensures r.sentTotal - w.sentTotal == r.next - w.next
    decreases total - w.next
  {
    if w.next < w.base + WINDOW_SIZE && w.next < total then
      Fill(SendOne(w), total)
    else
      w
  }

  /** The fill gives a send time to exactly the sequence numbers it sends. */
  lemma {:induction false} FillRecordsSends(w: Window, total: nat)
    requires Invariant(w, total)
    ensures forall i :: i in Fill(w, total).sent <==> i in w.sent || w.next <= i < Fill(w, total).next
    decreases total - w.next
  {
    if w.next < w.base + WINDOW_SIZE && w.next < total {
      FillRecordsSends(SendOne(w), total);
    }
  }

  /** One iteration of the inner loop keeps the invariant and the eventual
      result of the fill. */
  lemma FillStep(w: Window, total: nat)
    requires Invariant(w, total) && w.next < w.base + WINDOW_SIZE && w.next < total
    ensures Invariant(SendOne(w), total) && Fill(SendOne(w), total) == Fill(w, total)
  {
  }

  /** The condition at udpclient.py:109 under which a reply moves the window. */
  predicate Advances(w: Window, h: Header)
  {
    h.kind == DATA_ACK && h.ackNum >= w.base
  }

  /** Why the client process dies while handling a reply: `struct.unpack`
      raises on a reply that is not exactly 12 bytes, and `send_times[ack_num]`
      raises KeyError for an acknowledgment of a segment never sent. Neither
      is caught (only `socket.timeout` is). */
  datatype Fault = Malformed | UnsentAck

  datatype AckResult = Accepted(w: Window) | Crashed(fault: Fault)

  /** Handling one reply at the receive point: a DATA_ACK for `ack >= base`
      acknowledges everything up to `ack` cumulatively; anything else is
      ignored. */
  function Acknowledge(w: Window, total: nat, reply: seq<byte>): (r: AckResult)
    requires Invariant(w, total) && Ready(w, total)
    ensures r == Crashed(Malformed) <==> |reply| != HEADER_LEN
    ensures r == Crashed(UnsentAck) <==>
      Unpack(reply).Some? && Advances(w, Unpack(reply).value) && Unpack(reply).value.ackNum >= w.next
    ensures r.Accepted? ==> Invariant(r.w, total)
    ensures r.Accepted? ==>
      r.w.next == w.next && r.w.sentTotal == w.sentTotal &&
      r.w.retransmissions == w.retransmissions && r.w.sent == w.sent
    ensures r.Accepted? ==>
      if Advances(w, Unpack(reply).value) then r.w.base == Unpack(reply).value.ackNum + 1 > w.base
      else r.w.base == w.base
  {
    match Unpack(reply)
    case None => Crashed(Malformed)
    case Some(h) =>
      if Advances(w, h) then
        if h.ackNum in w.sent then Accepted(w.(base := h.ackNum + 1)) else Crashed(UnsentAck)
      else
        Accepted(w)
  }

  /** A DATA_ACK for the oldest segment in flight slides the window by one. */
  lemma AckOfBaseSlides(w: Window, total: nat, reply: seq<byte>)
    requires Invariant(w, total) && Ready(w, total) && w.base < w.next
    requires Unpack(reply).Some? && Unpack(reply).value.kind == DATA_ACK && Unpack(reply).value.ackNum == w.base
    ensures Acknowledge(w, total, reply) == Accepted(w.(base := w.base + 1))
  {
  }

  /** The `socket.timeout` handler: count every in-flight segment as
      retransmitted and go back to `base`. */
  function Timeout(w: Window, total: nat): (r: Window)
    requires Invariant(w, total)
    ensures Invariant(r, total)
    ensures r.base == w.base && r.next == w.base && r.sent == w.sent && r.sentTotal == w.sentTotal
    ensures r.retransmissions - w.retransmissions == w.next - w.base
  {
    w.(retransmissions := w.retransmissions + (w.next - w.base), next := w.base)
  }

  /** Go-Back-N recovery: after a timeout, the next fill resends exactly the
      segments that were in flight, so the window returns to where it was and
      both counters grow by the number of those segments. */
  lemma TimeoutThenRefill(w: Window, total: nat)
    requires Invariant(w, total) && Ready(w, total)
    ensures Fill(Timeout(w, total), total) ==
      w.(sentTotal := w.sentTotal + (w.next - w.base),
         retransmissions := w.retransmissions + (w.next - w.base))
  {
    var t := Timeout(w, total);
    var r := Fill(t, total);
    FillRecordsSends(t, total);
    assert r.next == w.next;
    assert r.sent == w.sent by {
      forall i ensures i in r.sent <==> i in w.sent {
        if w.base <= i < w.next { assert i in w.sent; }
      }
    }
  }

  /** The outer loop ends only once every packet is acknowledged; then the
      sender has sent each packet once plus the counted retransmissions. */
  lemma TransferComplete(w: Window, total: nat)
    requires Invariant(w, total) && w.base >= total
    ensures w.base == w.next == total
    ensures w.sentTotal == total + w.retransmissions
    ensures forall i :: i in w.sent <==> 0 <= i < total
  {
    forall i ensures i in w.sent <==> 0 <= i < total {
      if 0 <= i < total { assert i < w.next; }
    }
  }

  /** How the outer loop of udpclient.py:88-131 ends: every packet
      acknowledged, the client crashed on a reply, or (in this model) the
      supplied receive results ran out first. */
  datatype TransferEnd = AllAcked | TransferFault(fault: Fault) | RepliesExhausted

  /** The outer loop on window values: while `base` is below the packet
      count, fill the window and take the next receive result. A timeout
      goes back to `base`; a reply is acknowledged, or crashes the client. */
  function TransferRun(w: Window, total: nat, replies: seq<Recv>): (r: (Window, TransferEnd))
    requires Invariant(w, total)
    ensures Invariant(r.0, total)
    ensures r.1 == AllAcked <==> r.0.base >= total
    ensures r.1 != AllAcked ==> Ready(r.0, total)
    ensures w.base <= r.0.base && w.retransmissions <= r.0.retransmissions
    decreases |replies|
  {
    if w.base >= total then (w, AllAcked)
    else
      var f := Fill(w, total);
      if replies == [] then (f, RepliesExhausted)
      else
        match replies[0]
        case TimedOut => TransferRun(Timeout(f, total), total, replies[1..])
        case Received(d) =>
          match Acknowledge(f, total, d.bytes)
          case Crashed(fault) => (f, TransferFault(fault))
          case Accepted(next) => TransferRun(next, total, replies[1..])
  }

  /** A pass of the outer loop whose reply is accepted: the loop goes on
      from the acknowledged window with the remaining receive results. */
  lemma TransferRunAccepts(w: Window, total: nat, replies: seq<Recv>)
    requires Invariant(w, total) && w.base < total && 0 < |replies| && replies[0].Received?
    requires Acknowledge(Fill(w, total), total, replies[0].datagram.bytes).Accepted?
    ensures TransferRun(w, total, replies) ==
      TransferRun(Acknowledge(Fill(w, total), total, replies[0].datagram.bytes).w, total, replies[1..])
  {
  }

  /** Once every packet is acknowledged the loop ends, whatever is left to receive. */
  lemma TransferRunDone(w: Window, total: nat, replies: seq<Recv>)
    requires Invariant(w, total) && w.base >= total
    ensures TransferRun(w, total, replies) == (w, AllAcked)
  {
  }

  /** The sequence numbers lo, ..., hi - 1, in order. */
  function Span(lo: int, hi: int): seq<int>
    requires lo <= hi
  {
    seq(hi - lo, k requires 0 <= k < hi - lo => lo + k)
  }

  /** The sequence numbers the outer loop sends, one per `sendto`, in order:
      each pass sends next_seq_num up to where the fill stops, so after a
      timeout the window is sent again from `base`. Nothing below the
      starting `base` is ever sent again. */
  function TransferSends(w: Window, total: nat, replies: seq<Recv>): (r: seq<int>)
    requires Invariant(w, total)
    ensures forall k :: 0 <= k < |r| ==> w.base <= r[k] < total
    decreases |replies|
  {
    if w.base >= total then []
    else
      var f := Fill(w, total);
      var sentNow := Span(w.next, f.next);
      if replies == [] then sentNow
      else
        match replies[0]
        case TimedOut => sentNow + TransferSends(Timeout(f, total), total, replies[1..])
        case Received(d) =>
          match Acknowledge(f, total, d.bytes)
          case Crashed(_) => sentNow
          case Accepted(next) => sentNow + TransferSends(next, total, replies[1..])
  }

  /** One pass of the outer loop, for both folds: the window is filled and
      the new sequence numbers sent, then the receive result (if any) ends
      the loop or lets it go on with the rest. */
  lemma TransferPassCases(w: Window, total: nat, replies: seq<Recv>)
    requires Invariant(w, total) && w.base < total
    ensures replies == [] ==>
      TransferRun(w, total, replies) == (Fill(w, total), RepliesExhausted) &&
      TransferSends(w, total, replies) == Span(w.next, Fill(w, total).next)
    ensures replies != [] && replies[0].TimedOut? ==>
      var t := Timeout(Fill(w, total), total);
      TransferRun(w, total, replies) == TransferRun(t, total, replies[1..]) &&
      TransferSends(w, total, replies) == Span(w.next, Fill(w, total).next) + TransferSends(t, total, replies[1..])
    ensures replies != [] && replies[0].Received? ==>
      var a := Acknowledge(Fill(w, total), total, replies[0].datagram.bytes);
      (a.Crashed? ==>
        TransferRun(w, total, replies) == (Fill(w, total), TransferFault(a.fault)) &&
        TransferSends(w, total, replies) == Span(w.next, Fill(w, total).next)) &&
      (a.Accepted? ==>
        TransferRun(w, total, replies) == TransferRun(a.w, total, replies[1..]) &&
        TransferSends(w, total, replies) == Span(w.next, Fill(w, total).next) + TransferSends(a.w, total, replies[1..]))
  {
  }

  /** Once every packet is acknowledged the loop sends nothing more. */
  lemma TransferSendsDone(w: Window, total: nat, replies: seq<Recv>)
    requires Invariant(w, total) && w.base >= total
    ensures TransferSends(w, total, replies) == [] == Span(w.next, total)
  {
  }

  /** Every send the loop makes is one the counter packets_sent_total counts. */
  lemma {:induction false} TransferSendsCounted(w: Window, total: nat, replies: seq<Recv>)
    requires Invariant(w, total)
    ensures |TransferSends(w, total, replies)| == TransferRun(w, total, replies).0.sentTotal - w.sentTotal
    decreases |replies|
  {
    if w.base < total && replies != [] {
      var f := Fill(w, total);
      match replies[0]
      case TimedOut =>
        TransferSendsCounted(Timeout(f, total), total, replies[1..]);
      case Received(d) =>
        match Acknowledge(f, total, d.bytes)
        case Crashed(_) =>
        case Accepted(next) =>
          TransferSendsCounted(next, total, replies[1..]);
    }
  }

  /** The client's transfer-phase state, updated in place. */
  class GbnSender {
    /** The pre-built data units, `datas` in the source; TOTAL_PACKETS is their count. */
    const payloads: seq<seq<byte>>
    var base: int
    var nextSeqNum: int
    var packetsSentTotal: int
    var retransmissions: int
    /** The keys of `send_times`. */
    var sendTimes: set<int>

    function Total(): (r: nat) { |payloads| }

    /** The DATA segment for sequence number `i`: header (i, 0, DATA), then `datas[i]`. */
    function DataSegment(i: int): (r: seq<byte>)
      requires 0 <= i < Total() < U32_LIMIT
      ensures |r| == HEADER_LEN + |payloads[i]|
    {
      Segment(Header(i, 0, DATA), payloads[i])
    }

    /** The packet for `i` reads as DATA with sequence number `i`, carrying `datas[i]`. */
    lemma DataSegmentParts(i: int)
      requires 0 <= i < Total() < U32_LIMIT
      ensures UnpackHead(DataSegment(i)) == Some(Header(i, 0, DATA))
      ensures DataSegment(i)[HEADER_LEN..] == payloads[i]
    {
      SegmentParts(Header(i, 0, DATA), payloads[i]);
    }

    function State(): (r: Window)
      reads this
    {
      Window(base, nextSeqNum, packetsSentTotal, retransmissions, sendTimes)
    }

    predicate Valid()
      reads this
    {
      |payloads| < U32_LIMIT && Invariant(State(), Total())
    }

    constructor (payloads: seq<seq<byte>>)
      requires |payloads| < U32_LIMIT
      ensures Valid() && this.payloads == payloads && State() == Initial
    {
      this.payloads := payloads;
      base, nextSeqNum := 0, 0;
      packetsSentTotal, retransmissions := 0, 0;
      sendTimes := {};
    }

    /** The DATA segments for sequence numbers lo, ..., hi - 1, in order. */
    function DataSegments(lo: int, hi: int): (r: seq<seq<byte>>)
      requires 0 <= lo <= hi <= Total() < U32_LIMIT
      ensures |r| == hi - lo
      decreases hi - lo
    {
      if lo == hi then [] else DataSegments(lo, hi - 1) + [DataSegment(hi - 1)]
    }

    /** The run holds the packet for sequence number lo + k at position k. */
    lemma {:induction false} DataSegmentsAt(lo: int, hi: int)
      requires 0 <= lo <= hi <= Total() < U32_LIMIT
      ensures forall k :: 0 <= k < hi - lo ==> DataSegments(lo, hi)[k] == DataSegment(lo + k)
      decreases hi - lo
    {
      if lo < hi {
        DataSegmentsAt(lo, hi - 1);
      }
    }

    /** Every packet of a run reads as DATA with its own sequence number. */
    lemma DataSegmentsHeaders(lo: int, hi: int)
      requires 0 <= lo <= hi <= Total() < U32_LIMIT
      ensures forall k :: 0 <= k < hi - lo ==> UnpackHead(DataSegments(lo, hi)[k]) == Some(Header(lo + k, 0, DATA))
    {
      DataSegmentsAt(lo, hi);
      forall k | 0 <= k < hi - lo
        ensures UnpackHead(DataSegments(lo, hi)[k]) == Some(Header(lo + k, 0, DATA))
      {
        DataSegmentParts(lo + k);
      }
    }

    /** Consecutive runs of DATA segments concatenate. */
    lemma {:induction false} DataSegmentsSplit(lo: int, mid: int, hi: int)
      requires 0 <= lo <= mid <= hi <= Total() < U32_LIMIT
      ensures DataSegments(lo, mid) + DataSegments(mid, hi) == DataSegments(lo, hi)
      decreases hi - mid
    {
      if mid < hi {
        DataSegmentsSplit(lo, mid, hi - 1);
        var a, b, x := DataSegments(lo, mid), DataSegments(mid, hi - 1), DataSegment(hi - 1);
        assert a + (b + [x]) == (a + b) + [x];
      }
    }

    /** The oldest of a run of DATA segments, and the rest of the run. */
    lemma DataSegmentsPop(lo: int, hi: int)
      requires 0 <= lo < hi <= Total() < U32_LIMIT
      ensures DataSegments(lo, hi)[0] == DataSegment(lo)
      ensures DataSegments(lo, hi)[1..] == DataSegments(lo + 1, hi)
    {
      DataSegmentsAt(lo, hi);
      DataSegmentsSplit(lo, lo + 1, hi);
    }

    /** One pass of the inner loop (udpclient.py:91-98): build the segment
        for `next_seq_num`, record its send time, count it and move on. */
    method SendNext() returns (segment: seq<byte>)
      requires Valid() && nextSeqNum < base + WINDOW_SIZE && nextSeqNum < Total()
      modifies this
      ensures Valid() && segment == DataSegment(old(nextSeqNum))
      ensures State() == SendOne(old(State()))
    {
      FillStep(State(), Total());
      segment := DataSegment(nextSeqNum);
      sendTimes := sendTimes + {nextSeqNum};
      packetsSentTotal := packetsSentTotal + 1;
      nextSeqNum := nextSeqNum + 1;
    }

    /** udpclient.py:90-98. Returns the DATA segments sent, in order. */
    method FillWindow() returns (out: seq<seq<byte>>)
      requires Valid()
      modifies this
      ensures Valid() && State() == Fill(old(State()), Total())
      ensures out == DataSegments(old(nextSeqNum), nextSeqNum)
    {
      out := [];
      ghost var n0 := nextSeqNum;
      while nextSeqNum < base + WINDOW_SIZE && nextSeqNum < Total()
        invariant Valid()
        invariant Fill(State(), Total()) == Fill(old(State()), Total())
        invariant n0 <= nextSeqNum && out == DataSegments(n0, nextSeqNum)
        decreases Total() - nextSeqNum
      {
        ghost var w := State();
        FillStep(w, Total());
        assert DataSegments(n0, nextSeqNum + 1) == out + [DataSegment(nextSeqNum)];
        var segment := SendNext();
        out := out + [segment];
      }
      assert Fill(State(), Total()) == State();
    }

    /** udpclient.py:106-124, the reply received at the receive point. */
    method OnReply(reply: seq<byte>) returns (fault: Option<Fault>)
      requires Valid() && Ready(State(), Total())
      modifies this
      ensures Valid()
      ensures match Acknowledge(old(State()), Total(), reply)
        case Accepted(w) => fault == None && State() == w
        case Crashed(f) => fault == Some(f) && State() == old(State())
    {
      var h := Unpack(reply);
      if h.None? {
        return Some(Malformed);
      }
      if h.value.kind == DATA_ACK && h.value.ackNum >= base {
        if h.value.ackNum !in sendTimes {
          return Some(UnsentAck);
        }
        base := h.value.ackNum + 1;
      }
      fault := None;
    }

    /** udpclient.py:126-131. */
    method OnTimeout()
      requires Valid()
      modifies this
      ensures Valid() && State() == Timeout(old(State()), Total())
    {
      retransmissions := retransmissions + (nextSeqNum - base);
      nextSeqNum := base;
    }
  }
}
