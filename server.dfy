/** The server program (udpserver.py): one session per client
    (`handle_client_session`) and the dispatcher on the listening socket
    (`main`). Each `recvfrom` result is an input, and so is every random
    draw: the server ISN, the loss draw for each datagram that arrives and
    the FIN sequence number. */
module Server {
  import opened Wire
  import opened Handshake
  import opened Receiver

  // ------------------------------------------------------------ a session

  /** One `recvfrom` of the data phase, with the draws made for it. The loss
      draw happens only when a datagram arrived; `serverFsn` is used only for
      a FIN. */
  datatype Arrival = Arrival(recv: Recv, dropped: bool, serverFsn: FsnDraw)

  /** A value `random.randint(40000, 50000)` can draw for server_fsn. */
  type FsnDraw = fsn: int | ServerFsn(fsn) witness SERVER_FSN_MIN

  /** How a session ends. */
  datatype SessionEnd =
    /** struct.pack raised on client_isn + 1 (udpserver.py:38); the thread dies. */
    | SynAckOverflow
    /** No final ACK within 2 s, or the wrong one: close and return. */
    | HandshakeRejected
    /** The final ACK was not 12 bytes: struct.error ends the thread. */
    | HandshakeMalformed
    /** A FIN was answered with FIN_ACK. */
    | FinAcknowledged
    /** No datagram within 10 s. */
    | InactivityTimeout
    /** An exception in the data loop: a datagram shorter than 12 bytes, or a
        FIN whose sequence number + 1 does not fit in 32 bits. */
    | LoopError
    /** The supplied arrivals ran out (the source would keep waiting). */
    | ArrivalsExhausted

  /** Every DATA_ACK among `ds` acknowledges a sequence number below `e`. */
  predicate AcksBelow(ds: seq<Datagram>, e: int)
  {
    forall k :: 0 <= k < |ds| && Unpack(ds[k].bytes).Some? && Unpack(ds[k].bytes).value.kind == DATA_ACK ==>
      Unpack(ds[k].bytes).value.ackNum < e
  }

  /** Raising the bound keeps every acknowledgment below it. */
  lemma AcksBelowMonotone(ds: seq<Datagram>, e0: int, e: int)
    requires AcksBelow(ds, e0) && e0 <= e
    ensures AcksBelow(ds, e)
  {
  }

  /** What a session's data phase comes to: the final expected_seq_num, the
      datagrams sent, in order, and how the loop ended. */
  datatype Session = Session(expected: int, sent: seq<Datagram>, end: SessionEnd)

  /** The data loop (udpserver.py:65-106) on values: a timeout ends it;
      a datagram that arrived is one `Receive` step, whose reply goes back
      to the datagram's sender; a FIN or an error ends it after that step. */
  function SessionRun(expected: int, arrivals: seq<Arrival>): (r: Session)
    requires 0 <= expected <= U32_LIMIT
    ensures expected <= r.expected <= U32_LIMIT
    ensures r.end in {FinAcknowledged, InactivityTimeout, LoopError, ArrivalsExhausted}
    decreases |arrivals|
  {
    if arrivals == [] then Session(expected, [], ArrivalsExhausted)
    else
      var a := arrivals[0];
      match a.recv
      case TimedOut => Session(expected, [], InactivityTimeout)
      case Received(d) =>
        var step := Receive(expected, a.dropped, d.bytes, a.serverFsn);
        var out := ReplyTo(step, d.peer);
        match step.verdict
        case Finished => Session(step.expected, out, FinAcknowledged)
        case Errored => Session(step.expected, out, LoopError)
        case Continue =>
          var rest := SessionRun(step.expected, arrivals[1..]);
          Session(rest.expected, out + rest.sent, rest.end)
  }

  /** The datagram a step sends back to `peer`, if any. */
  function ReplyTo(step: Step, peer: Addr): (r: seq<Datagram>)
  {
    if step.reply.Some? then [Datagram(step.reply.value, peer)] else []
  }

  /** A session that finishes has just sent a FIN_ACK. */
  lemma {:induction false} SessionRunFinAck(expected: int, arrivals: seq<Arrival>)
    requires 0 <= expected <= U32_LIMIT
    ensures SessionRun(expected, arrivals).end == FinAcknowledged ==> EndsWithFinAck(SessionRun(expected, arrivals).sent)
    decreases |arrivals|
  {
    if arrivals != [] && arrivals[0].recv.Received? {
      var a := arrivals[0];
      var d := a.recv.datagram;
      var step := Receive(expected, a.dropped, d.bytes, a.serverFsn);
      var out := ReplyTo(step, d.peer);
      if step.verdict == Continue {
        SessionRunFinAck(step.expected, arrivals[1..]);
        var rest := SessionRun(step.expected, arrivals[1..]);
        if rest.end == FinAcknowledged {
          EndsWithFinAckAfter(out, rest.sent);
        }
      } else if step.verdict == Finished {
        var fin := UnpackHead(d.bytes).value;
        assert step.reply == ServerFinAck(fin.seqNum, a.serverFsn);
        assert Unpack(step.reply.value) == Some(Header(a.serverFsn, fin.seqNum + 1, FIN_ACK));
        assert SessionRun(expected, arrivals).sent == [Datagram(step.reply.value, d.peer)];
      }
    }
  }

  /** A datagram that arrives and lets the loop go on: its reply comes
      first, then whatever the remaining arrivals bring. */
  lemma SessionRunContinues(expected: int, arrivals: seq<Arrival>, step: Step)
    requires 0 <= expected <= U32_LIMIT && 0 < |arrivals| && arrivals[0].recv.Received?
    requires step == Receive(expected, arrivals[0].dropped, arrivals[0].recv.datagram.bytes, arrivals[0].serverFsn)
    requires step.verdict == Continue
    ensures var rest := SessionRun(step.expected, arrivals[1..]);
      SessionRun(expected, arrivals) ==
        Session(rest.expected, ReplyTo(step, arrivals[0].recv.datagram.peer) + rest.sent, rest.end)
  {
  }

  /** The last datagram of `ds` is a FIN_ACK. */
  predicate EndsWithFinAck(ds: seq<Datagram>)
  {
    0 < |ds| && Unpack(ds[|ds| - 1].bytes).Some? && Unpack(ds[|ds| - 1].bytes).value.kind == FIN_ACK
  }

  /** Sending more before a run keeps its last datagram last. */
  lemma EndsWithFinAckAfter(a: seq<Datagram>, b: seq<Datagram>)
    requires EndsWithFinAck(b)
    ensures EndsWithFinAck(a + b)
  {
    assert (a + b)[|a + b| - 1] == b[|b| - 1];
  }

  /** The data loop only ever acknowledges segments it has accepted. */
  lemma {:induction false} SessionRunAcksAccepted(expected: int, arrivals: seq<Arrival>)
    requires 0 <= expected <= U32_LIMIT
    ensures AcksBelow(SessionRun(expected, arrivals).sent, SessionRun(expected, arrivals).expected)
    decreases |arrivals|
  {
    if arrivals != [] && arrivals[0].recv.Received? {
      var a := arrivals[0];
      var d := a.recv.datagram;
      var step := Receive(expected, a.dropped, d.bytes, a.serverFsn);
      if step.verdict == Continue {
        SessionRunAcksAccepted(step.expected, arrivals[1..]);
        var rest := SessionRun(step.expected, arrivals[1..]);
        var out := ReplyTo(step, d.peer);
        AcksBelowMonotone(out, step.expected, rest.expected);
        AcksBelowConcat(out, rest.sent, rest.expected);
      }
    }
  }

  /** Two runs whose acknowledgments are all below `e`. */
  lemma AcksBelowConcat(a: seq<Datagram>, b: seq<Datagram>, e: int)
    requires AcksBelow(a, e) && AcksBelow(b, e)
    ensures AcksBelow(a + b, e)
  {
    forall k | 0 <= k < |a + b| ensures (a + b)[k] == if k < |a| then a[k] else b[k - |a|] {
    }
  }

  /** The session as it ends when `rest` is what remains of the arrivals,
      `sent` has been sent and expected_seq_num is `expected`. */
  function Resumed(sent: seq<Datagram>, expected: int, rest: seq<Arrival>): (r: Session)
    requires 0 <= expected <= U32_LIMIT
  {
    var tail := SessionRun(expected, rest);
    Session(tail.expected, sent + tail.sent, tail.end)
  }

  /** The data loop (udpserver.py:62-106), after a successful handshake. */
  method ReceiveData(receiver: GbnReceiver, arrivals: seq<Arrival>)
    returns (sent: seq<Datagram>, end: SessionEnd)
    requires receiver.Valid() && receiver.expected == 0
    modifies receiver
    ensures receiver.Valid()
    ensures Session(receiver.expected, sent, end) == SessionRun(0, arrivals)
    ensures end in {FinAcknowledged, InactivityTimeout, LoopError, ArrivalsExhausted}
    ensures AcksBelow(sent, receiver.expected)
    ensures end == FinAcknowledged ==> EndsWithFinAck(sent)
  {
    sent, end := [], ArrivalsExhausted;
    var i := 0;
    assert [] + SessionRun(0, arrivals).sent == SessionRun(0, arrivals).sent;
    while i < |arrivals|
      invariant receiver.Valid() && 0 <= i <= |arrivals|
      invariant Resumed(sent, receiver.expected, arrivals[i..]) == SessionRun(0, arrivals)
    {
      if arrivals[i].recv.TimedOut? {
        assert arrivals[i..][0] == arrivals[i] && sent + [] == sent;
        end := InactivityTimeout;
        break;
      }
      var verdict;
      sent, verdict := ReceiveOne(receiver, sent, arrivals[i..]);
      if verdict != Continue {
        end := if verdict == Finished then FinAcknowledged else LoopError;
        break;
      }
      assert arrivals[i..][1..] == arrivals[i + 1..];
      i := i + 1;
    }
    assert i == |arrivals| ==> arrivals[i..] == [] && sent + [] == sent;
    assert Session(receiver.expected, sent, end) == SessionRun(0, arrivals);
    SessionRunAcksAccepted(0, arrivals);
    SessionRunFinAck(0, arrivals);
  }

  /** One pass of the data loop on a datagram that arrived: the receiver
      takes its step and the reply, if any, goes back to the sender. */
  method ReceiveOne(receiver: GbnReceiver, sent: seq<Datagram>, rest: seq<Arrival>)
    returns (sent': seq<Datagram>, verdict: Verdict)
    requires receiver.Valid() && 0 < |rest| && rest[0].recv.Received?
    modifies receiver
    ensures receiver.Valid()
    ensures verdict == Continue ==>
      Resumed(sent', receiver.expected, rest[1..]) == Resumed(sent, old(receiver.expected), rest)
    ensures verdict != Continue ==>
      Session(receiver.expected, sent', if verdict == Finished then FinAcknowledged else LoopError) ==
      Resumed(sent, old(receiver.expected), rest)
  {
    var a := rest[0];
    var reply;
    reply, verdict := receiver.OnDatagram(a.dropped, a.recv.datagram.bytes, a.serverFsn);
    var out := ReplyTo(Step(receiver.expected, reply, verdict), a.recv.datagram.peer);
    sent' := sent + out;
    if verdict == Continue {
      var tail := SessionRun(receiver.expected, rest[1..]);
      assert sent + (out + tail.sent) == sent' + tail.sent;
    }
  }

  /** `handle_client_session`: answer the SYN the dispatcher handed over, wait
      for the final ACK, then run the receiver. Returns what was sent, how the
      session ended and the final expected_seq_num. */
  method HandleClientSession(client: Addr, syn: seq<byte>, serverIsn: int, finalAck: Recv, arrivals: seq<Arrival>)
    returns (sent: seq<Datagram>, end: SessionEnd, expected: int)
    requires |syn| == HEADER_LEN && ServerIsn(serverIsn)
    ensures end == SynAckOverflow <==> ServerSynAck(syn, serverIsn).None?
    ensures end != SynAckOverflow ==>
      0 < |sent| && sent[0] == Datagram(ServerSynAck(syn, serverIsn).value, client)
    ensures end == HandshakeRejected <==>
      ServerSynAck(syn, serverIsn).Some? && ServerAccept(serverIsn, finalAck) == Rejected
    ensures end == HandshakeMalformed <==>
      ServerSynAck(syn, serverIsn).Some? && ServerAccept(serverIsn, finalAck) == Malformed
    ensures end in {SynAckOverflow, HandshakeRejected, HandshakeMalformed} ==> |sent| <= 1 && expected == 0
    // `struct.pack` raises before the SYN_ACK's `sendto`; a failed handshake
    // has sent the SYN_ACK and nothing else
    ensures end == SynAckOverflow ==> sent == []
    ensures end in {HandshakeRejected, HandshakeMalformed} ==>
      sent == [Datagram(ServerSynAck(syn, serverIsn).value, client)]
    ensures 0 <= expected <= U32_LIMIT
    // the data phase only ever acknowledges segments it has accepted
    ensures 0 < |sent| ==> AcksBelow(sent[1..], expected)
    ensures end == FinAcknowledged ==> 1 < |sent| && EndsWithFinAck(sent)
    // once established, the data phase is the data loop run on the arrivals
    ensures ServerSynAck(syn, serverIsn).Some? && ServerAccept(serverIsn, finalAck) == Established ==>
      var s := SessionRun(0, arrivals);
      end == s.end && expected == s.expected &&
      sent == [Datagram(ServerSynAck(syn, serverIsn).value, client)] + s.sent
  {
    sent, expected := [], 0;
    var synAck := ServerSynAck(syn, serverIsn);
    if synAck.None? {
      return sent, SynAckOverflow, expected;
    }
    sent := [Datagram(synAck.value, client)];
    var accept := ServerAccept(serverIsn, finalAck);
    if accept == Rejected {
      end := HandshakeRejected;
    } else if accept == Malformed {
      end := HandshakeMalformed;
    } else {
      var receiver := new GbnReceiver();
      var rest;
      rest, end := ReceiveData(receiver, arrivals);
      expected := receiver.expected;
      if end == FinAcknowledged {
        EndsWithFinAckAfter(sent, rest);
      }
      sent := sent + rest;
      assert sent[1..] == rest;
    }
  }

  // ------------------------------------------------------------ dispatch

  /** The test at udpserver.py:122-124: the datagram unpacks as exactly 12
      bytes, is a SYN, and comes from an address without a session. */
  predicate Admits(active: set<Addr>, d: Datagram)
  {
    Unpack(d.bytes).Some? && Unpack(d.bytes).value.kind == SYN && d.peer !in active
  }

  /** The addresses of some datagrams. */
  function Peers(ds: seq<Datagram>): (r: set<Addr>)
    decreases |ds|
  {
    if ds == [] then {} else Peers(ds[..|ds| - 1]) + {ds[|ds| - 1].peer}
  }

  /** Exactly the addresses of the datagrams are among their peers. */
  lemma {:induction false} PeersOf(ds: seq<Datagram>)
    ensures forall a :: a in Peers(ds) <==> exists k :: 0 <= k < |ds| && ds[k].peer == a
    decreases |ds|
  {
    if ds != [] {
      var front := ds[..|ds| - 1];
      PeersOf(front);
      forall a ensures a in Peers(ds) <==> exists k :: 0 <= k < |ds| && ds[k].peer == a {
        if a in Peers(front) {
          var k :| 0 <= k < |front| && front[k].peer == a;
          assert ds[k].peer == a;
        }
        if k :| 0 <= k < |ds| && ds[k].peer == a {
          if k < |front| { assert front[k].peer == a; }
        }
      }
    }
  }

  /** The sessions spawned, in order, for datagrams arriving on the listening
      socket while `active` holds the addresses registered beforehand: each
      datagram is checked against the registry as the earlier ones left it. */
  function Spawned(active: set<Addr>, inbox: seq<Datagram>): (r: seq<Datagram>)
    ensures |r| <= |inbox|
    decreases |inbox|
  {
    if inbox == [] then []
    else
      var before := Spawned(active, inbox[..|inbox| - 1]);
      var d := inbox[|inbox| - 1];
      if Admits(active + Peers(before), d) then before + [d] else before
  }

  /** Every session is spawned for a datagram of the inbox that is a SYN
      from an address without a session. */
  lemma {:induction false} SpawnedAdmitted(active: set<Addr>, inbox: seq<Datagram>)
    ensures forall k :: 0 <= k < |Spawned(active, inbox)| ==>
      Spawned(active, inbox)[k] in inbox && Admits(active, Spawned(active, inbox)[k])
    decreases |inbox|
  {
    if inbox != [] {
      var front := inbox[..|inbox| - 1];
      SpawnedAdmitted(active, front);
      var before := Spawned(active, front);
      forall k | 0 <= k < |before| ensures before[k] in inbox {
        assert before[k] in front;
      }
    }
  }

  /** Each session is spawned for an address that neither was registered
      beforehand nor was registered by an earlier spawn of the same run. */
  lemma SpawnedAdmittedInTurn(active: set<Addr>, inbox: seq<Datagram>)
    ensures forall k :: 0 <= k < |Spawned(active, inbox)| ==>
      Admits(active + Peers(Spawned(active, inbox)[..k]), Spawned(active, inbox)[k])
  {
    var s := Spawned(active, inbox);
    SpawnedAdmitted(active, inbox);
    SpawnedDistinct(active, inbox);
    forall k | 0 <= k < |s| ensures Admits(active + Peers(s[..k]), s[k]) {
      PeersOf(s[..k]);
    }
  }

  /** No two sessions are spawned for the same address. */
  lemma {:induction false} SpawnedDistinct(active: set<Addr>, inbox: seq<Datagram>)
    ensures forall i, j :: 0 <= i < j < |Spawned(active, inbox)| ==>
      Spawned(active, inbox)[i].peer != Spawned(active, inbox)[j].peer
    decreases |inbox|
  {
    if inbox != [] {
      var front := inbox[..|inbox| - 1];
      SpawnedDistinct(active, front);
      var before := Spawned(active, front);
      PeersOf(before);
      forall i | 0 <= i < |before| ensures before[i].peer in Peers(before) {
      }
    }
  }

  /** The datagram at position `i` is judged against the registry as the
      datagrams before it left it. */
  lemma SpawnedSnoc(active: set<Addr>, inbox: seq<Datagram>, i: int)
    requires 0 <= i < |inbox|
    ensures Spawned(active, inbox[..i + 1]) ==
      if Admits(active + Peers(Spawned(active, inbox[..i])), inbox[i])
      then Spawned(active, inbox[..i]) + [inbox[i]]
      else Spawned(active, inbox[..i])
  {
    assert inbox[..i + 1][..i] == inbox[..i];
  }

  /** Registering one more session adds exactly its address. */
  lemma PeersAppend(ds: seq<Datagram>, d: Datagram)
    ensures Peers(ds + [d]) == Peers(ds) + {d.peer}
  {
    assert (ds + [d])[..|ds|] == ds;
  }

  /** A second SYN from an address that already has a session (a retransmitted
      SYN, say) spawns nothing. */
  lemma DuplicateSynSpawnsOnce(active: set<Addr>, first: Datagram, second: Datagram)
    requires Admits(active, first) && second.peer == first.peer
    ensures Spawned(active, [first, second]) == [first]
  {
    assert [first, second][..1] == [first];
    assert [first][..0] == [];
    assert active + Peers([]) == active;
    assert Spawned(active, [first]) == [first];
    PeersAppend([], first);
    assert [] + [first] == [first];
  }

  /** The listening loop's state: the registry of addresses that own a session. */
  class Dispatcher {
    /** active_clients; entries are never removed. */
    var activeClients: set<Addr>

    constructor ()
      ensures activeClients == {}
    {
      activeClients := {};
    }

    /** One pass of `main`'s loop (udpserver.py:120-133). A datagram that does
        not unpack (`struct.error`) or is not a fresh SYN changes nothing.
        Returns whether a session thread is started for it. */
    method OnPacket(d: Datagram) returns (spawn: bool)
      modifies this
      ensures spawn == Admits(old(activeClients), d)
      ensures activeClients == if spawn then old(activeClients) + {d.peer} else old(activeClients)
    {
      var header := Unpack(d.bytes);
      spawn := false;
      if header.Some? {
        if header.value.kind == SYN && d.peer !in activeClients {
          activeClients := activeClients + {d.peer};
          spawn := true;
        }
      }
    }

    /** `main`'s loop over a run of datagrams: returns the (address, SYN)
        handed to each session thread started. */
    method Serve(inbox: seq<Datagram>) returns (sessions: seq<Datagram>)
      modifies this
      ensures sessions == Spawned(old(activeClients), inbox)
      ensures activeClients == old(activeClients) + Peers(sessions)
    {
      sessions := [];
      var i := 0;
      while i < |inbox|
        invariant 0 <= i <= |inbox|
        invariant sessions == Spawned(old(activeClients), inbox[..i])
        invariant activeClients == old(activeClients) + Peers(sessions)
      {
        SpawnedSnoc(old(activeClients), inbox, i);
        var spawn := OnPacket(inbox[i]);
        if spawn {
          PeersAppend(sessions, inbox[i]);
          sessions := sessions + [inbox[i]];
        }
        i := i + 1;
      }
      assert inbox[..i] == inbox;
    }
  }
}
