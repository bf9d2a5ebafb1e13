# A verified model of a Go-Back-N transport over UDP

The repository is a pair of scripts. `udpclient.py` opens a connection with
a three-way handshake and pushes a fixed number of DATA segments through a
Go-Back-N sliding window of five. It handles cumulative DATA_ACKs and goes
back to `base` on every receive timeout, then closes with FIN / FIN_ACK.
`udpserver.py` listens on one port and starts one session per new client
address. Each session answers the SYN from its own socket, waits for the
final ACK and runs the Go-Back-N receiver. The receiver drops 30% of the
datagrams it gets (a loss draw) and answers FIN with FIN_ACK.

Every segment starts with the same 12-byte header: sequence number,
acknowledgment number and type, each an unsigned 32-bit big-endian integer.

The model is split into seven modules:

- `Wire` (wire.dfy) is the header codec (`struct.pack` / `struct.unpack` with `'!III'`):
  - it includes the failure of `struct.pack` on out-of-range fields;
  - it includes the failure of `struct.unpack` on anything but 12 bytes;
  - it includes the server's `message[:12]` variant, which accepts longer datagrams.
- `Sender` (sender.dfy) is the client's window, in two layers:
  - pure step functions on a `Window` value (fill, acknowledge, timeout) and the window invariant they keep;
  - the class `GbnSender`, whose fields are updated in place. Each of its methods is proved to take exactly one of those steps.
- `Receiver` (receiver.dfy) holds one pass of the session's data loop:
  - the pure function `Receive`;
  - the class `GbnReceiver`, which holds `expected_seq_num`. A ghost record shows that the accepted sequence numbers are exactly 0, 1, …, expected − 1.
- `Handshake` (handshake.dfy) holds the segments each side builds and the checks each side makes during set-up and teardown.
- `Client` (client.dfy) is the whole client run, from SYN to teardown, as a method over the receive results.
- `Server` (server.dfy) has one session (`handle_client_session`) and the dispatcher (`main`), a class that owns the `active_clients` registry.
- `Lockstep` (lockstep.dfy) runs a `GbnSender` against a `GbnReceiver` over a network that neither loses nor reorders, on which no receive times out. The receiver's `expected_seq_num` follows the sender's `base`, and nothing is retransmitted. The same is shown of the two loops as folds: the server's data loop on in-order arrivals sends exactly the DATA_ACKs that make the client's transfer loop finish without a retransmission.

Each `recvfrom` is an input: either `TimedOut` or a datagram together with
its peer address. So is every random draw, within the inclusive range of
the call that makes it:

- the client ISN, 0..10000;
- the server ISN, 20000..30000;
- the server FIN sequence number, 40000..50000;
- the loss draw, as a boolean `dropped`.

Each uncaught exception the code can raise becomes an explicit outcome:

- `struct.error` on a reply that is not 12 bytes;
- `struct.error` on a field that no longer fits in 32 bits;
- `KeyError` on an acknowledgment of a segment that was never sent.

In these places the code is stricter than one might expect; the model
follows the code:

- Only the server's data loop slices `message[:12]`. Every other decode
  needs exactly 12 bytes.
- In the server's data loop, a datagram shorter than 12 bytes does not
  get discarded while the loop continues. `struct.unpack` raises, the
  `except Exception` handler at udpserver.py:104-106 catches it, and the
  whole session ends (`Receiver.Verdict.Errored`, `Server.SessionEnd.LoopError`).
- The same handler ends the session on a FIN whose sequence number is
  2^32 − 1, because `struct.pack` of seq + 1 raises.
- The client catches only `socket.timeout`. A SYN_ACK, DATA_ACK or FIN_ACK
  that is not 12 bytes therefore ends the client process, and so does a
  DATA_ACK for a segment never sent. These are the outcomes
  `MalformedReply`, `Fault.Malformed`, `Teardown.MalformedFinAck` and
  `Fault.UnsentAck`.
- The server's handshake catches only `socket.timeout`. A final ACK that
  is not 12 bytes ends the session thread
  (`Server.SessionEnd.HandshakeMalformed`).
- Where the code dispatches on the type (the client's transfer loop, the
  server's data loop and the dispatcher), a segment of an unknown type
  matches no branch and is ignored. Where it checks for one expected type,
  an unknown type simply fails the check: the client gives up at
  udpclient.py:47 (`ConnectFailure.BadSynAck`), the session thread returns
  at udpserver.py:50 (`Accept.Rejected`), and the teardown at
  udpclient.py:151 counts as unacknowledged (`Teardown.Closed(false)`).

## Model

| member | source | states |
|---|---|---|
| Wire.Pack | udpclient.py:34 | the header is packed into exactly 12 bytes |
| Wire.PackFieldsInOrder | udpclient.py:92 | bytes 0-3, 4-7 and 8-11 of the packed header read back, most significant byte first, as seq, ack and type |
| Wire.PackLayout | udpclient.py:140 | the first and last byte of each field are its top and bottom 8 bits (network byte order) |
| Wire.PackFields | udpclient.py:51 | `struct.pack('!III', …)` succeeds iff all three integers lie in [0, 2^32); if so, the 12 bytes decode back to the same triple |
| Wire.Unpack | udpclient.py:46 | `struct.unpack('!III', b)` succeeds iff b has exactly 12 bytes |
| Wire.UnpackPack | udpclient.py:106 | decoding an encoded header returns the same seq, ack and type |
| Wire.PackUnpack | udpserver.py:122 | encoding a decoded 12-byte datagram gives back the same bytes |
| Wire.PackInjective | udpclient.py:34 | two headers with the same encoding are equal |
| Wire.ReadOfBigEndian | udpclient.py:92 | reading a u32 written as four big-endian bytes gives back the value |
| Wire.BigEndianOfRead | udpclient.py:106 | writing back the value read from four bytes gives the same bytes |
| Wire.UnpackHead | udpserver.py:72 | `unpack(message[:12])` succeeds iff the datagram has at least 12 bytes, and then decodes exactly its first 12 |
| Wire.UnpackHeadIgnoresTail | udpserver.py:72 | bytes after the first 12 never change the decoded header |
| Wire.SegmentParts | udpclient.py:92-93 | the first 12 bytes of a DATA packet decode to its header, and the payload follows untouched |
| Wire.Segment | udpclient.py:93 | a segment is the 12-byte header followed by the payload, so it is exactly 12 bytes longer than the payload |
| Sender.Invariant | udpclient.py:69-131 | the window invariant: base ≤ next_seq_num ≤ base + WINDOW_SIZE and next_seq_num ≤ TOTAL_PACKETS; packets_sent_total == next_seq_num + retransmissions; `send_times` has a key for every sequence number below next_seq_num (acknowledged ones included) and for none at or above base + WINDOW_SIZE or TOTAL_PACKETS |
| Sender.Ready | udpclient.py:90 | the point where the client blocks in `recvfrom`: next_seq_num == min(base + WINDOW_SIZE, TOTAL_PACKETS); while packets remain unacknowledged, at least one segment is then in flight |
| Sender.Advances | udpclient.py:109 | the guard `ack_num >= base` on a DATA_ACK, under which a reply moves the window |
| Sender.SendOne | udpclient.py:92-98 | one pass of the inner loop: next_seq_num is sent, given a send time and counted |
| Sender.Fill | udpclient.py:90-98 | the fill loop keeps the window invariant and stops with next_seq_num == min(base + WINDOW_SIZE, TOTAL_PACKETS); base and retransmissions are unchanged, and packets_sent_total grows by exactly the number of segments sent |
| Sender.FillRecordsSends | udpclient.py:96 | the fill gives a send time to exactly the sequence numbers it sends, and keeps the earlier ones |
| Sender.FillStep | udpclient.py:91-98 | one pass sends next_seq_num, raises packets_sent_total and next_seq_num by 1, keeps the invariant and does not change where the fill ends |
| Sender.Acknowledge | udpclient.py:104-124 | a reply that is not 12 bytes crashes the client; a DATA_ACK with ack ≥ base either crashes with KeyError (ack ≥ next_seq_num, never sent) or sets base = ack + 1 > base; any other reply changes nothing; the invariant is kept |
| Sender.AckOfBaseSlides | udpclient.py:109-124 | a DATA_ACK for the oldest segment in flight moves base forward by exactly one |
| Sender.Timeout | udpclient.py:126-131 | retransmissions grows by exactly next_seq_num − base, next_seq_num returns to base, and base, packets_sent_total and the send-time keys are unchanged |
| Sender.TimeoutThenRefill | udpclient.py:88-131 | after a timeout, the next fill resends exactly the segments that were in flight: the window returns to where it was, and packets_sent_total and retransmissions each grow by their number |
| Sender.TransferComplete | udpclient.py:88 | when the outer loop exits (base ≥ TOTAL_PACKETS), base == next_seq_num == TOTAL_PACKETS, and packets_sent_total == TOTAL_PACKETS + retransmissions |
| Sender.TransferRun | udpclient.py:88-131 | the outer transfer loop as a fold over the receive results: each pass fills the window, then a timeout goes back to base and an accepted reply is handled by `Acknowledge`; a crash stops the loop; the loop ends with every packet acknowledged iff base reaches TOTAL_PACKETS; the invariant is kept, the window is full whenever the loop stops early, and base and retransmissions never decrease |
| Sender.TransferRunAccepts | udpclient.py:100-124 | a pass whose reply is accepted continues the loop from the acknowledged window with the remaining receive results |
| Sender.TransferRunDone | udpclient.py:88 | once base ≥ TOTAL_PACKETS the loop ends at once, whatever is left to receive |
| Sender.TransferSends | udpclient.py:88-131 | the sequence numbers the outer loop sends, one per `sendto`, in order: each pass sends next_seq_num up to where the fill stops, so after a timeout the window is sent again from base; no sequence number below the starting base is ever sent again, and none at or above TOTAL_PACKETS |
| Sender.TransferSendsCounted | udpclient.py:97 | the loop sends exactly as many packets as packets_sent_total counts |
| Sender.TransferSendsDone | udpclient.py:88 | once every packet is acknowledged the loop sends nothing more |
| Sender.TransferPassCases | udpclient.py:88-131 | one pass of both folds: the fill's new packets are sent, then no result, a timeout, a crash or an accepted reply decides how the loop ends or goes on |
| Sender.GbnSender.DataSegmentParts | udpclient.py:92-93 | the DATA packet for seq i reads as header (i, 0, DATA) followed by datas[i] |
| Sender.GbnSender.DataSegmentsAt | udpclient.py:90-94 | a run of DATA packets holds, at position k, the packet for sequence number lo + k: one per number, in order |
| Sender.GbnSender.DataSegmentsHeaders | udpclient.py:90-94 | every packet of a run reads as DATA with its own sequence number |
| Sender.GbnSender.DataSegmentsSplit | udpclient.py:90-94 | consecutive runs of DATA packets concatenate |
| Sender.GbnSender.DataSegmentsPop | udpclient.py:90-94 | the oldest packet of a run comes first, and the rest is the run that starts one later |
| Sender.GbnSender.constructor | udpclient.py:69-75 | the transfer starts with base = next_seq_num = 0, both counters 0 and no send times |
| Sender.GbnSender.DataSegment | udpclient.py:92-93 | the DATA packet for sequence number i, header (i, 0, DATA) then datas[i], is 12 bytes longer than datas[i] |
| Sender.GbnSender.DataSegments | udpclient.py:90-94 | the DATA packets for lo, …, hi − 1, one per sequence number |
| Sender.GbnSender.SendNext | udpclient.py:91-98 | one pass of the inner loop, in place: returns the packet for next_seq_num and takes exactly the `SendOne` step |
| Sender.GbnSender.FillWindow | udpclient.py:90-98 | the inner loop, in place: the new state is `Fill` of the old one, and the packets sent are the DATA packets for old next_seq_num, …, new next_seq_num − 1, in order |
| Sender.GbnSender.OnReply | udpclient.py:100-124 | the reply handling, in place: the new state is `Acknowledge` of the old one, or a crash that leaves the state alone |
| Sender.GbnSender.OnTimeout | udpclient.py:126-131 | the timeout handler, in place: the new state is `Timeout` of the old one |
| Handshake.SynSegment | udpclient.py:31-34 | the SYN decodes to (client_isn, 0, SYN) |
| Handshake.ValidSynAck | udpclient.py:47 | the client accepts a reply exactly when it is SYN_ACK with ack = client_isn + 1 |
| Handshake.ClientConnect | udpclient.py:41-65 | no reply fails; a reply that is not 12 bytes fails; the client connects iff the reply is SYN_ACK with ack = client_isn + 1 and server_isn + 1 fits in 32 bits; the ACK sent is (client_isn + 1, server_isn + 1, ACK), and its destination, the reply's sender, becomes the session address |
| Handshake.FinSegment | udpclient.py:139-140 | the FIN decodes to (client_fsn, 0, FIN) |
| Handshake.ValidFinAck | udpclient.py:151 | the teardown is acknowledged exactly by FIN_ACK with ack = client_fsn + 1 |
| Handshake.ClientTeardown | udpclient.py:144-158 | a reply that is not 12 bytes crashes; the teardown is acknowledged iff the reply is FIN_ACK with ack = client_fsn + 1; otherwise (including a timeout) the client still closes |
| Handshake.ServerSynAck | udpserver.py:29-38 | the SYN_ACK exists iff client_isn + 1 fits in 32 bits, and then decodes to (server_isn, client_isn + 1, SYN_ACK) |
| Handshake.ValidFinalAck | udpserver.py:50 | the server accepts the final ACK exactly when it is ACK with ack = server_isn + 1, whatever its seq and sender |
| Handshake.ServerAccept | udpserver.py:43-59 | the session is established iff the reply is ACK with ack = server_isn + 1; a reply that is not 12 bytes ends the thread; otherwise the session is rejected |
| Handshake.ServerFinAck | udpserver.py:91-97 | the FIN_ACK to FIN(S) exists iff S + 1 fits in 32 bits, and then decodes to (server_fsn, S + 1, FIN_ACK) |
| Handshake.HandshakeCompletes | udpserver.py:36-50 | without loss, the server's SYN_ACK to the client's SYN passes the client's check, and the client's ACK passes the server's check |
| Handshake.WrongSynAckFails | udpclient.py:47-60 | a SYN_ACK whose ack is not client_isn + 1 never connects |
| Handshake.TeardownCompletes | udpserver.py:93-97 | the server's FIN_ACK to the client's FIN is accepted by the client's check at udpclient.py:151 |
| Receiver.DataAck | udpserver.py:79 | the DATA_ACK decodes to (0, ack, DATA_ACK) |
| Receiver.InOrder | udpserver.py:72-76 | the datagram's first 12 bytes decode as DATA with seq == expected_seq_num |
| Receiver.Receive | udpserver.py:65-106 | one pass of the data loop: a dropped datagram changes nothing and gets no reply; expected grows by exactly 1 iff the datagram is the DATA segment with seq == expected, and never changes otherwise; every DATA_ACK sent acknowledges expected − 1 after the step; the session errors iff the datagram is shorter than 12 bytes or is a FIN with seq 2^32 − 1; it finishes iff the datagram is any other FIN, and the reply is then its FIN_ACK |
| Receiver.InOrderAccepted | udpserver.py:76-82 | in-order DATA is answered with DATA_ACK(0, expected), and expected grows by 1 |
| Receiver.OutOfOrderDiscarded | udpserver.py:83-89 | out-of-order DATA leaves expected alone and re-sends DATA_ACK(expected − 1), or nothing when expected is 0 |
| Receiver.OtherTypesIgnored | udpserver.py:72-99 | a segment that is neither DATA nor FIN changes nothing and gets no reply |
| Receiver.GbnReceiver.constructor | udpserver.py:62 | the session starts at expected_seq_num = 0 with nothing accepted |
| Receiver.GbnReceiver.OnDatagram | udpserver.py:67-99 | one pass, in place: it does what `Receive` does; expected never decreases, and the accepted sequence numbers stay exactly 0, …, expected − 1, in order |
| Client.RunClient | udpclient.py:29-158 | the SYN is sent first; the handshake fails iff `ClientConnect` fails, and then only the SYN was sent; otherwise the final ACK goes to the session address, followed by exactly the DATA packets of `TransferSends` (header (n, 0, DATA) then datas[n] for each sequence number n the loop sends, in order); the outcome, packets_sent_total and retransmissions are exactly those of `TransferRun` from the initial window on the receive results, followed by `ClientTeardown` of the FIN_ACK reply when every packet was acknowledged; a crashed or unfinished run sends nothing after its DATA packets, and a completed run sends exactly one FIN(seq = TOTAL_PACKETS) after them |
| Client.TransferAndClose | udpclient.py:69-158 | after the handshake, every datagram goes to the session address; the DATA packets are exactly those of `TransferSends`, in order, one per counted send; the outcome and both counters are exactly those of `TransferRun` from the initial window, then `AfterTransfer`; nothing follows the DATA packets unless every packet is acknowledged, and then exactly one FIN(seq = TOTAL_PACKETS) follows |
| Client.AfterTransfer | udpclient.py:133-158 | how the run ends after the transfer loop: the teardown of the FIN_ACK reply when every packet is acknowledged, the crash when the loop crashed, unfinished when the receive results ran out; never a handshake failure |
| Client.SendAll | udpclient.py:90-94 | one `sendto` per packet, in order, all to the same address |
| Client.Transfer | udpclient.py:88-131 | the transfer loop, in place: the sender's final window and how the loop ended are exactly `TransferRun` from the initial window on the receive results, and the datagrams sent are exactly the DATA packets for the sequence numbers of `TransferSends`, in order, to the session address; the invariant is kept |
| Client.TransferPass | udpclient.py:90-131 | one pass of the outer loop, in place: the packets of the fill are sent after the earlier ones; a pass that ends the loop ends it as `TransferRun` does and has sent what `TransferSends` sends, and otherwise what remains of both folds from the new state with the remaining results equals what remained from the old one |
| Client.SendWindow | udpclient.py:90-98 | the inner loop with its `sendto`s, in place: the new state is `Fill` of the old one, and the DATA packets for old next_seq_num, …, new next_seq_num − 1 follow the earlier ones, one per counted send |
| Client.SendsDataSpan | udpclient.py:92-94 | sending the packets of one fill sends the DATA packet for each sequence number of its span, in order |
| Client.SendsDataAppend | udpclient.py:94 | runs of sent DATA packets concatenate along with their sequence numbers |
| Client.SendsDataIsData | udpclient.py:92-94 | every packet sent for a sequence number reads as a DATA segment for the session address |
| Server.ReceiveData | udpserver.py:62-106 | the data loop, in place: the final expected_seq_num, the datagrams sent and how the session ended are exactly `SessionRun` from 0 on the arrivals; every DATA_ACK sent acknowledges a segment it accepted (ack < expected); a session that finishes has just sent a FIN_ACK |
| Server.ReceiveOne | udpserver.py:67-106 | one pass of the data loop, in place: what remains of the run from the new state equals what remained from the old one |
| Server.SessionRun | udpserver.py:62-106 | the data loop as a fold over the arrivals: each datagram is handled by `Receive` and its reply sent to the datagram's sender; the loop stops on a receive timeout, on an error and after a FIN_ACK; expected_seq_num never decreases and stays within 2^32 |
| Server.SessionRunContinues | udpserver.py:65-90 | a pass that neither finishes nor errors sends its reply and continues with the remaining arrivals |
| Server.SessionRunAcksAccepted | udpserver.py:76-89 | every DATA_ACK the data loop sends acknowledges a segment accepted by the end of the run |
| Server.SessionRunFinAck | udpserver.py:91-97 | a data loop that finishes has just sent a FIN_ACK |
| Server.HandleClientSession | udpserver.py:18-109 | when packing the SYN_ACK overflows, nothing at all is sent; otherwise the SYN_ACK is sent first to the client address; the session is rejected or ends on a malformed ACK exactly as `ServerAccept` decides, and then the SYN_ACK was the only datagram and expected stays 0; once established, the rest of the session is exactly `SessionRun` from 0 on the arrivals; every DATA_ACK sent acknowledges an accepted segment; a session that finishes has just sent a FIN_ACK |
| Server.Admits | udpserver.py:122-124 | the dispatcher's test: the datagram unpacks as exactly 12 bytes, is a SYN, and its address has no session |
| Server.Spawned | udpserver.py:119-131 | `main`'s loop as a left-to-right fold over the inbox, each datagram judged against the registry as the earlier ones left it; at most one session per datagram |
| Server.SpawnedAdmitted | udpserver.py:119-131 | every session spawned is for a datagram of the inbox that decodes as a SYN from an address not registered before the run |
| Server.SpawnedAdmittedInTurn | udpserver.py:122-125 | every session spawned is for an address registered neither before the run nor by an earlier spawn of the same run |
| Server.SpawnedDistinct | udpserver.py:124-125 | no two sessions are ever spawned for the same address |
| Server.DuplicateSynSpawnsOnce | udpserver.py:124-125 | a second SYN from an address that already has a session spawns nothing |
| Server.Dispatcher.constructor | udpserver.py:117 | the registry starts empty |
| Server.Dispatcher.OnPacket | udpserver.py:120-133 | a session is spawned iff the datagram is exactly 12 bytes, decodes as SYN and comes from an unregistered address; then the address is added, otherwise the registry is unchanged (malformed datagrams included) |
| Server.Dispatcher.Serve | udpserver.py:119-133 | over a run of datagrams, the sessions spawned are exactly `Spawned` of the inbox, and the registry grows by exactly their addresses |
| Lockstep.LosslessTransfer | udpclient.py:88-131 | without loss or reordering, and with no receive timing out, the sender ends with base == next_seq_num == TOTAL_PACKETS, a send time for exactly the sequence numbers 0, …, TOTAL_PACKETS − 1, packets_sent_total == TOTAL_PACKETS and retransmissions == 0, and the receiver's expected_seq_num == TOTAL_PACKETS |
| Lockstep.DeliverOldest | udpserver.py:76-82 | the oldest segment in flight is accepted by the receiver, and its DATA_ACK slides the sender's window by one; afterwards the receiver's expected_seq_num equals the sender's base |
| Lockstep.AcksFromTail | udpclient.py:104-109 | past the first in-order DATA_ACK, the rest start one sequence number later |
| Lockstep.AckedInOrder | udpclient.py:100-124 | when every reply is the DATA_ACK for the current base and none times out, the transfer loop acknowledges every packet without a retransmission |
| Lockstep.AckOfBaseSlidesFilled | udpclient.py:90-124 | a filled window that receives the DATA_ACK for its base slides by one, keeps the invariant and adds no retransmission |
| Lockstep.AckOfBaseStep | udpclient.py:88-124 | the same pass seen from the transfer loop: it continues from the slid window with the remaining replies |
| Lockstep.LosslessRun | udpclient.py:69-131 | from the initial window, with in-order DATA_ACKs and no receive timing out, the transfer loop ends with every packet acknowledged, base == next_seq_num == packets_sent_total == TOTAL_PACKETS, no retransmission and a send time for exactly 0, …, TOTAL_PACKETS − 1 |
| Lockstep.LosslessSends | udpclient.py:88-98 | from the initial window, with in-order DATA_ACKs and no receive timing out, the client sends every packet exactly once, in sequence order 0, …, TOTAL_PACKETS − 1 |
| Lockstep.AckedInOrderSends | udpclient.py:88-124 | with every reply the DATA_ACK for the current base, the loop sends the rest of the transfer once, in order, from next_seq_num on |
| Lockstep.AckOfBaseSends | udpclient.py:90-124 | the inductive step: the new packets of the fill, then the rest of the transfer from the slid window, are the rest of the transfer from the old one |
| Lockstep.FilledSlides | udpclient.py:124 | after a fill, sliding base by one keeps the window invariant while packets remain unacknowledged |
| Lockstep.SpanSplit | udpclient.py:90-98 | consecutive runs of sequence numbers concatenate |
| Lockstep.SegmentAccepted | udpserver.py:76-82 | the first of the in-order DATA arrivals is accepted and answered with its DATA_ACK |
| Lockstep.InOrderSession | udpserver.py:62-106 | the data loop on DATA segments arriving in order and undropped accepts them all, ends with expected_seq_num == TOTAL_PACKETS and sends exactly one DATA_ACK per segment, in order, each to the client; these are the replies `AckedInOrder` feeds the client |
| Lockstep.AckDatagramsPop | udpserver.py:79-80 | the first DATA_ACK of a run is for its lowest sequence number, and the rest is the run that starts one later |

## Left out

- Sockets: creating and binding them, `settimeout` and the timeout values, and the `recvfrom` buffer sizes (1024 and 2048 bytes). Each `recvfrom` result is an input instead, with no truncation of long datagrams. `sendto` becomes the list of datagrams a method returns.
- Threads: the dispatcher hands each session's SYN to `Server.HandleClientSession`, which runs on its own inputs. Sessions share no state, so their interleaving is not modelled.
- The RTT estimate, the adaptive timeout and its clamp (udpclient.py:112-122). These are floating-point arithmetic over wall-clock time. Only the key set of `send_times` is kept, because a missing key crashes the client.
- The statistics report (udpclient.py:160-170), which uses pandas and floating-point percentages.
- Command-line parsing, `sys.exit` and every `print`.
- Payload construction (`'D' * 80`): the payloads are arbitrary byte strings.
- `random.randint` / `random.random`: these become parameters restricted to their ranges.
- The unbounded loops (`while True`, and the client's transfer loop) run over finite sequences of receive results. Running out of inputs is an explicit outcome: `Client.Outcome.Unfinished` and `Server.SessionEnd.ArrivalsExhausted`.
- Client.RunClient: TOTAL_PACKETS is the number of payloads, so it is never negative. The source treats a negative count like 0. The count must stay below 2^32, so that every DATA header and the FIN can be packed.
- Lockstep.LosslessTransfer: only the data phase runs in lockstep. The handshake and teardown are composed separately, in Handshake.HandshakeCompletes and Handshake.TeardownCompletes.
