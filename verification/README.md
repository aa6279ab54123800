# PicoLAN in Dafny

PicoLAN is a small packet network over serial lines. This project models its two protocol layers and proves what they guarantee, and what they do not.

**Framing** (`serialiser.h`, `address_field.h`). `Packets` holds the six packet kinds and their field codecs. `Parsing` holds `ParserSerialiser`: the printer, which escapes the bytes 0xAA to 0xAC and appends a two-sum checksum modulo 255, and the byte-at-a-time parser, as a class that is proved equal to the step function `Parsing.Step`. `RoundTrip` proves what the parser does with printed frames, `Soundness` what it does with any bytes, `StaleBytes` when bytes of earlier messages reach a handler, `Fletcher` what the checksum detects (the recurrence is the 8-bit one of Appendix I of RFC 1146), and `Addresses` that an `AddressField` is a set of addresses.

**Stream transport** (`socket_stream.cpp`, `server.cpp`, `client.cpp`). `Endpoints` holds the connection state and the two `on_data` handlers, `Writing` the sender in `SocketStream::write`, and `Streams` the class `SocketStream` with the methods of `Server` and `Client`. `Receiving` is about the in-order receiver. `Crossing` follows the datagrams of one end over the wire to the handlers of the other, and `Polling` says how far the polling loops read. The other modules put the two ends together over two lossy first-in-first-out links:

* `Handshake` and `Agreement` are about connecting, `Reconnecting` about calling `connect()` again.
* `Transfer` has the sender of one write against a receiver, and its invariant; `Sessions` several writes in a row. `GoBackN` states what holds with the advance repaired, `ShortWrites` what holds of the source's sender for up to two frames, `ClientEnd` what holds of it for a client near number 255. `Flows` follows one burst over links that lose nothing, and `Runs` has building blocks for runs. With these `LongWrites` shows what goes wrong with more frames, `Lossless` and `LosslessRuns` what goes wrong without any loss, and `Lagging` what becomes of a sender and a receiver whose numbers differ. `Endings` is about which writes are certain to end.
* `Duplex` has both ends as the source has them, connecting and writing to each other, and `ManySyns` shows that its bound is exact. `Embedding` shows that the transfers of `Transfer` are runs of these two ends.
* `Sides` shows that an end goes on from its own deeds, whatever happens elsewhere, and `Calls` and `Opening` that the methods of the class are such deeds: `write`, `connect` and `accept`, with datagrams arriving in whatever batches, leave the object as every such run leaves the end, and send what it says there. `Closing` is about `disconnect`.

A run is any list of steps (send, lose, deliver, time out, ...); a step that is not enabled changes nothing, so a statement for all lists is a statement for all schedules. Fields named as history in the comments record what happened and never influence a step.

**Dispatch** (`picolan.h`). `Sockets` holds the list of bound sockets and the delivery of datagrams.

## What comes out

* The framing layer keeps every promise made for it: whole streams round trip, the parser recovers from any state at the price of at most one frame, it accepts exactly what a two-phase batch specification finds, and the checksum detects every one- and two-bit error in a message. Bytes left over in the buffer reach a handler exactly when a message with a right checksum is shorter than its kind needs (`StaleBytes.StaleBytesExactly`).
* The class and the two-ended system are the same. What one end sends arrives at the end it is meant for, and nowhere else, as the messages it said, in order (`Crossing.OnlyTheRemoteHears`, `Crossing.WholeWay`); `write`, `connect` and `accept` are runs of the system in every interleaving with the other end (`Calls.WriteInEveryRun`, `Opening.ConnectIsRun`, `Opening.AcceptIsRun`). Their results are decided by the messages in the batches: `connect` succeeds if and only if the first batch with a SYN or a CLOSE has no CLOSE and is not the last (`Opening.ConnectExactly`), and `accept` likewise with an ACK (`Opening.AcceptExactly`). A `connect` that fails has sent its SYN and nothing else, not even a CLOSE.
* The transport does not deliver what `socket_stream.h:60-68` promises ("SocketStreams form a connection and ensure all data is sent in good order"). The model follows the code. Three faults:
  * The start number. `send_syn` increments after use (`socket_stream.cpp:226`), `write` before use (`socket_stream.cpp:101`), so that one `connect()` leaves each sender one number ahead of its receiver (`Agreement.OpenEndsAgree`), and not aligned with it as the statements about single writes below ask. `Duplex.NothingEverCrosses`: between two new ends, in all runs with at most 250 calls of `connect()`, with accepting, writing, closing and reconnecting at either end at any time, no byte ever crosses in either direction, and every write that ends returns `ACK_OUT_OF_SEQUENCE`. With 251 calls of `connect()` bytes can cross, out of order (`ManySyns.OneTooMany`), so the bound is exact (`ManySyns.NothingCrossesExactly`). `Lagging.NothingCrossesExactly` says for which numbers of sender and receiver nothing can cross.
  * The advance after a burst. `sequence_number += i` (`socket_stream.cpp:149`) leaves the sender one behind the acknowledged number. From an aligned start the first answered wait is still safe (`GoBackN.FirstAnswerIsSafe`), but bytes arrive in good order in all runs if and only if the write takes at most two frames (`LongWrites.InOrderExactly`), and a returned length can be trusted in all runs if and only if it takes one frame, or two behind number 254 (`LongWrites.TrustedExactly`); in both cases also if the receiver is a client that has recorded 254 or 255, which takes one frame at most and never lets a write succeed (`ClientEnd.WriteNeverSucceeds`). A second write can be lost entirely (`LongWrites.SecondWriteMayLose`). Over links that lose nothing, in all runs whose waits end on the ACK of the burst's last frame, every burst but the first loses its first frame (`LosslessRuns.LosslessLoses`), so that a returned length can be trusted if and only if one burst holds the bytes (`LosslessRuns.LosslessExactly`). With `i + 1` in its place, any number of writes of any length are safe (`GoBackN.RepairedSenderDelivers`, `GoBackN.RepairedWritesDeliver`) and arrive over such links (`Lossless.RepairedArrives`).
  * The sentinel. `seq_tuple(-1, 0)` narrows to 255 (`socket_stream.cpp:38`, `socket_stream.cpp:94`), so that an acknowledgement of 255 matches unused slots. Where it never does, `write` ends within a bound on the waits (`Writing.WriteTerminates`). Such a bound exists for every behaviour of the peer if and only if the write has one frame behind an odd number, or two behind 255 (`Endings.EndsExactly`). `write` returns `TIMEOUT` if and only if three waits go unanswered, in a row or not (`Writing.TimesOutExactly`). A write of at most four frames that is acknowledged in full in every wait ends if and only if its last number is not 255 or it has four frames (`Writing.AcknowledgedWriteEnds`).
* After several calls of `connect()` the client's number is ahead of the server's record by the number of later SYNs, and the ends agree in all runs if and only if `connect()` is called at most once (`Reconnecting.AheadByLaterSyns`, `Reconnecting.AgreeExactly`).
* `client.cpp:108` compares in `int`, so a client accepts nothing after number 255, whereas a server wraps; up to that point they do the same (`Receiving.ClientSimulatesServer`).

`picolan.h:302` overwrites `remote` before `on_data` compares it. `Endpoints.HandlersTakeMessages` is the bridge from the handlers on raw payloads to the handlers on messages that the modules about two ends use.

## What is taken for granted

The etk library is not part of this model. Appending to a full `etk::List` is taken to have no effect, `etk::RingBuffer` to be a queue with room, `etk::Bits<uint8>` to be the eight bits of a byte, `sizeof(AddressField)` to be 32, and unions to be little-endian. The parser's buffer has 256 cells, as many as the 8-bit `data_pos` can reach; that the 64 of the source suffice on serialised frames is proved (`RoundTrip.FramesStayInBuffer`). Clocks are not modelled: a timed wait is given by what arrives in it, or may end at any time.

## Model

| member | source | states |
|---|---|---|
| Fletcher.CheckSum | serialiser.h:753-764 | the loop over the buffer computes the checksum of its first cells |
| Fletcher.ClosedForm | serialiser.h:743-746 | the running sums are the sum and the position-weighted sum of the bytes modulo 255 |
| Fletcher.OneByteChange | serialiser.h:743-764 | a change of one byte goes unnoticed exactly when it exchanges 0x00 and 0xFF |
| Fletcher.TwoByteCriterion | serialiser.h:743-764 | the exact arithmetic condition under which a change of two bytes goes unnoticed |
| Fletcher.TwoByteChange | serialiser.h:743-764 | at a distance coprime to 255, it goes unnoticed exactly when each byte is unchanged or exchanged between 0x00 and 0xFF |
| Fletcher.SwapDetected | serialiser.h:743-764 | swapping two bytes at such a distance goes unnoticed exactly when they are equal modulo 255 |
| Fletcher.OneBitError | serialiser.h:743-764 | every single-bit error changes the checksum |
| Fletcher.TwoBitError | serialiser.h:743-764 | every two-bit error in at most 255 bytes changes the checksum |
| Packets.SizeIsBodyLength | serialiser.h:370-580 | for all six kinds size() is the number of body bytes sent, and at most 59 |
| Packets.DecodeBody | serialiser.h:245-336 | from_bytes gives back the packet whose body lies in the buffer, whatever follows it |
| Packets.DecodeIsLocal | serialiser.h:774-821 | a decoded packet depends on no byte beyond those its kind needs |
| Parsing.RunAppend | serialiser.h:633-705 | reading in two parts is reading the whole |
| Parsing.WireLength | serialiser.h:722-772 | a frame has size() + 6 bytes and one more for each escaped byte of body and checksum |
| Parsing.ParserSerialiser.constructor | serialiser.h:834-843 | the initial state of the parser |
| Parsing.ParserSerialiser.AddByte | serialiser.h:722-725 | stores one byte and advances the 8-bit position |
| Parsing.ParserSerialiser.Read | serialiser.h:633-705 | one byte changes all parser fields as the step function says, and the output not at all |
| Parsing.ParserSerialiser.Switch | serialiser.h:646-703 | the six states' reactions to a data byte |
| Parsing.ParserSerialiser.CheckMessage | serialiser.h:696-697 | a message is handed on exactly when its checksum matches |
| Parsing.ParserSerialiser.ReadAvailable | picolan.h:245-249 | reading all available bytes is running the parser over them |
| Parsing.ParserSerialiser.ReadList | serialiser.h:245-253 | a list is read up to its length byte and its room |
| Parsing.ParserSerialiser.ReadAddresses | serialiser.h:330-336 | an address field is read byte by byte |
| Parsing.ParserSerialiser.ReadPacket | serialiser.h:774-815 | the packet of the message's kind is read from the buffer field by field |
| Parsing.ParserSerialiser.ReadData | serialiser.h:774-821 | the handler of the packet's kind gets the decoded packet; other ids reach none |
| Parsing.ParserSerialiser.SendByte | serialiser.h:766-772 | escapes if needed, emits, and steps both sums |
| Parsing.ParserSerialiser.SendBytes | serialiser.h:135-144 | a field of several bytes goes out escaped, in order, and into the sums |
| Parsing.ParserSerialiser.SendBody | serialiser.h:375-571 | each kind's fields go out in the order of its send |
| Parsing.ParserSerialiser.SendMessage | serialiser.h:119-124 | start byte, header and body go out, and the sums cover header and body |
| Parsing.ParserSerialiser.Send | serialiser.h:338-345 | a packet puts exactly its frame on the wire |
| RoundTrip.RunStuffed | serialiser.h:635-644 | escaped bytes reach the state machine as data, whatever they are |
| RoundTrip.MessageRun | serialiser.h:655-685 | a header and a whole body leave exactly that message in the buffer, from any earlier content |
| RoundTrip.FrameDelivers | serialiser.h:633-705 | a frame delivers its packet and nothing else from any state outside an escape |
| RoundTrip.StreamDelivers | serialiser.h:633-781 | any list of packets sent is handled with equal fields, in order, and nothing else is |
| RoundTrip.WireInjective | serialiser.h:119-124 | lists of packets with the same bytes are the same |
| RoundTrip.Resynchronises | serialiser.h:633-705 | after any bytes from any state, all packets but the first are handled exactly once in order, and the first too unless an escape was pending outside the start state |
| RoundTrip.FramesStayInBuffer | serialiser.h:722-725 | on serialised frames the write position never exceeds 61, so 64 cells are enough |
| Soundness.ScanIsSound | serialiser.h:646-703 | every message the batch scan finds is a start token, an id below 7, a size, that many bytes and a matching checksum, without a delimiter between them |
| Soundness.OversizedRun | serialiser.h:679-684 | a size of 254 or 255 never leaves the data state |
| Soundness.AttemptRun | serialiser.h:646-703 | the machine treats one attempt at a frame as the batch scan does, also when it breaks off |
| Soundness.ParserRefinesScan | serialiser.h:633-705 | on any bytes in any chunks the parser accepts exactly what unescaping the whole and scanning it finds |
| Soundness.ParserIsSound | serialiser.h:633-705 | everything accepted is a whole frame of the input |
| Soundness.HandledPackets | serialiser.h:774-821 | while accepted messages are as long as their kind needs, handlers see exactly the packets in them and no stale byte |
| StaleBytes.NextByteTells | serialiser.h:245-336 | the first byte behind a body that is too short tells two packets apart |
| StaleBytes.StaleBytesExactly | serialiser.h:774-821 | what handlers see of a message with a right checksum is independent of the buffer's earlier content if and only if the message is as long as its kind needs |
| Soundness.TwoBitErrorDropped | serialiser.h:694-697 | a frame with a two-bit error in its body reaches no handler |
| Addresses.AddressField.constructor | address_field.h:18-22 | a new field has no address |
| Addresses.AddressField.SetAddr | address_field.h:24-29 | changes the field in place as the function With says |
| Addresses.AddressField.GetAddr | address_field.h:31-36 | reads membership |
| Addresses.HasAfterWith | address_field.h:24-36 | set_addr changes the membership of its own address only |
| Addresses.LastValueWins | address_field.h:24-36 | after any calls of set_addr, get_addr gives the last value set for each address |
| Addresses.SameAddresses | address_field.h:31-41 | a field is determined by its addresses |
| Addresses.FieldSurvives | serialiser.h:229-235 | sending and parsing a field preserves every get_addr |
| Sockets.Socket.OnData | datagram.cpp:97-105 | the sender is remembered and the payload appended |
| Sockets.Interface.Bind | picolan.h:153-164 | refuses exactly the ports in use, and otherwise appends |
| Sockets.Interface.UnbindSocket | picolan.h:169-176 | the loop that removes while it iterates removes every match from a list of distinct ports and keeps the rest in order |
| Sockets.Interface.DatagramHandler | picolan.h:295-310 | only the socket on the port hears a datagram for this address, and its remote is overwritten |
| Sockets.SweepComplete | picolan.h:171-175 | that loop removes every match exactly when no two matches are neighbours |
| Sockets.PortsStayDistinct | picolan.h:153-176 | after any calls of bind and unbind_socket ports are distinct, and unbinding unbinds |
| Endpoints.HandlersTakeMessages | picolan.h:301-306 | with remote overwritten as the dispatcher does, the handlers on a payload buffer do what the handlers on messages do, whatever lies behind the message |
| Crossing.BatchIsTaken | picolan.h:301-306 | a batch of datagrams from one sender is its messages, taken in order by the handlers of the end's own kind; the sender becomes the remote, and the answers, and nothing else, go back to it |
| Crossing.OnlyTheRemoteHears | picolan.h:295-310 | of an end's datagrams, the end at the remote's address and port hears every message in order as coming from the sender's address, and any other end hears nothing |
| Crossing.WholeWay | picolan.h:245-310 | through escaping, checksum, parser and dispatch, the messages one end sends are those that the other takes |
| Crossing.SynPairs | server.cpp:84-93 | the SYN of connect(r, port) reaches the server that listens there, which then sends to the client's address and port, and the client to it |
| Crossing.PairsTalk | socket_stream.cpp:197-246 | such ends take each other's messages, answer each other, and stay paired |
| Streams.SocketStream.SendSynMessage | socket_stream.cpp:218-231 | sends the number and increments it afterwards |
| Streams.SocketStream.SendAckMessage | socket_stream.cpp:234-246 | acknowledges remote_sequence |
| Streams.SocketStream.DisconnectNow | socket_stream.cpp:197-216 | closes and tells the peer, unless closed already; also while listening |
| Streams.SocketStream.Listen | server.cpp:33-40 | listens if closed |
| Streams.SocketStream.OnServerData | server.cpp:78-150 | the server's reaction in every state |
| Streams.SocketStream.OnClientData | client.cpp:71-122 | the client's reaction in every state |
| Streams.SocketStream.ReadBatch | picolan.h:295-309 | a batch of datagrams is dispatched one by one |
| Streams.SocketStream.PollWhile | client.cpp:48-58 | the polling loops of connect and accept |
| Polling.PollStops | client.cpp:48-58 | connect and accept read the batches as one stream up to the first one after which the state has changed, and the time is up exactly when that is the last or there is none |
| Polling.WaitStops | socket_stream.cpp:127-134 | write's wait reads up to the first batch after which the final number is the last one acknowledged, or all |
| Streams.SocketStream.Connect | client.cpp:32-69 | the whole of connect, with its result, final state and datagrams |
| Streams.SocketStream.Accept | server.cpp:47-75 | the whole of accept, with its result, final state and datagrams |
| Opening.ConnectExactly | client.cpp:32-69 | from the messages in the batches: the result of connect, that it leaves the client open with the first SYN recorded or closed, and that it sends a SYN and, if it succeeds, an ACK |
| Opening.AcceptExactly | server.cpp:47-75 | likewise for accept: NONE leaves the server open with ACK, SYN and its answers sent; otherwise it is closed, and has sent a CLOSE exactly if the time was up and none was heard |
| Opening.ConnectIsRun | client.cpp:32-69 | in all runs of the two ends in which the client connects, hears those messages and stops, it is left as connect leaves it and says what connect sends |
| Opening.AcceptIsRun | server.cpp:47-75 | in all runs in which the server accepts, hears those messages and stops, it is left as accept leaves it and says what accept sends |
| Closing.PeerIsTold | socket_stream.cpp:197-216 | disconnect from any state but CLOSED sends one datagram, and the paired end that reads it is closed |
| Closing.ServerIsDetached | server.cpp:78-150 | in every reachable state, when the client disconnects and its link is delivered, whatever else is on it, the server has no peer |
| Closing.ClientIsDetached | client.cpp:71-122 | and when the server disconnects, the client is closed |
| Streams.SocketStream.FillPayload | socket_stream.cpp:112-120 | a frame takes the next 52 bytes, or what is left |
| Streams.SocketStream.SendFrameNow | socket_stream.cpp:100-124 | one frame is numbered and addressed, then a batch is read, then it goes out |
| Streams.SocketStream.SendBurst | socket_stream.cpp:97-125 | the loop sends exactly the burst's frames, between them handles whatever arrives, and fills the slots, in closed form |
| Streams.SocketStream.AwaitAck | socket_stream.cpp:127-134 | whole batches are read and handled until the final number is the last ACK heard |
| Streams.SocketStream.MatchAck | socket_stream.cpp:144-151 | the loop over the slots |
| Streams.SocketStream.OneBurst | socket_stream.cpp:77-155 | one turn of the outer loop, with all datagrams that arrive in it |
| Streams.SocketStream.Write | socket_stream.cpp:48-159 | the whole of write: everything sent and handled in it, and its result as a function of what last_recved_ack is at the end of each wait |
| Sides.RunFromDeeds | socket_stream.cpp:48-246 | in all runs of the two ends, where an end goes on and what it says depends on its own calls and on what it hears, and on nothing else |
| Calls.FrameCrosses | socket_stream.cpp:103-123 | a frame goes from the end's address to the remote and port it had when the frame was made, behind the answers to what is read meanwhile, and is heard as that frame |
| Calls.BurstCrosses | socket_stream.cpp:100-125 | the datagrams of a burst, dispatched at the paired end, are the burst's frames, taken there in order |
| Calls.WriteIsRun | socket_stream.cpp:48-159 | write is a run of one end: its frames, what is heard before each and in each wait, up to the batch that ends it, and its result |
| Calls.WriteInEveryRun | socket_stream.cpp:48-159 | in all runs of the two ends with these deeds, write leaves the end where the run does, with the same result, and has sent what the end says there |
| Calls.WriteCrosses | socket_stream.cpp:100-125 | all that such a write sends, answers included, is what the paired end takes |
| Writing.FrameForm | socket_stream.cpp:100-125 | sending frame after frame is the closed form of a burst |
| Writing.Segmentation | socket_stream.cpp:80-125 | 1 to 4 frames of 1 to 52 bytes with consecutive numbers that fit the payload and concatenate to the burst's bytes |
| Writing.MatchForm | socket_stream.cpp:145-151 | without the sentinel an acknowledgement matches the one slot whose number it carries |
| Writing.ConcludeMatch | socket_stream.cpp:143-156 | where the sender goes on after an answer, and when it fails |
| Writing.WriteTerminates | socket_stream.cpp:70-158 | write ends after at most as many waits as frames and retries left, whatever is acknowledged, if at the end of no wait a 255 matches an unused slot |
| Writing.TimesOutExactly | socket_stream.cpp:136-142 | write returns TIMEOUT if and only if three waits end with the sender's own number as the last ACK |
| Writing.SilenceTimesOut | socket_stream.cpp:136-142 | if all waits end so, the first burst goes out three times from the same position under the same numbers, and the third wait ends in TIMEOUT |
| Writing.SentinelMatch | socket_stream.cpp:93-151 | what an ACK of 255 does in a burst of fewer than four frames: back to the first byte, with a number that drifts by the indices of all matching slots |
| Writing.AcknowledgedWriteEnds | socket_stream.cpp:93-155 | a write of at most four frames that is acknowledged in full in every wait returns its length if its last number is not 255 or it has four frames, and otherwise never ends |
| Endings.EndsExactly | socket_stream.cpp:70-158 | there is a bound on the waits for whatever is acknowledged if and only if the write has one frame behind an odd number or two behind 255 |
| Receiving.ServerUnwraps | server.cpp:132-142 | within 255 of the expected index, the 8-bit server is the ideal receiver with unbounded numbers: acceptance, bytes and every answer |
| Receiving.DeliveredInOrder | server.cpp:134-138 | the ideal receiver delivers the frames in order, each once |
| Receiving.AliasAccepted | server.cpp:133-134 | 256 ahead, a wrong frame is accepted |
| Receiving.ClientSimulatesServer | client.cpp:98-116 | client and server do the same as long as no more frames are accepted than there are numbers up to 255; then their answers differ and the client's bytes are a prefix |
| Handshake.OpenServerHasOpenedClient | server.cpp:108-116 | in every reachable state an open server recorded a SYN that the client sent, and the client has been open since |
| Agreement.OpenEndsAgree | socket_stream.cpp:218-231 | when one connect has opened both ends, numbers and port agree and the links are empty, whatever was lost |
| Reconnecting.OneConnectOpens | server.cpp:68-72 | a run with exactly one connect and no data opens both ends; connect and accept have returned, and what either end writes then is on its link |
| Reconnecting.TwoConnectsDisagree | client.cpp:54-57 | a run with exactly two connects and no data opens both ends with numbers that disagree |
| Reconnecting.AheadByLaterSyns | socket_stream.cpp:218-231 | in all runs without data the client's number is ahead of the server's record by one and the SYNs sent after the recorded one; so that half agrees if and only if these are a multiple of 256 |
| Reconnecting.AgreeExactly | client.cpp:32-69 | the ends agree in all runs without data and with at most n connects if and only if n is at most one |
| Transfer.PositionsInRange | socket_stream.cpp:80-88 | in every run positions stay within the bytes and bursts within four frames |
| Embedding.TransferIsPart | socket_stream.cpp:77-156 | the steps of a transfer are, one for one, moves of the two ends while one writes and the other listens |
| Embedding.WriteEnters | socket_stream.cpp:48-62 | write between two open ends with empty links begins such a transfer |
| Transfer.ReceiverTakes | server.cpp:132-142 | on the link, the receiver takes exactly the frame behind the last one it took, and a client none behind 255 |
| Transfer.AnswerMeans | socket_stream.cpp:143-151 | an answer is the number of a frame of this burst that the receiver has taken |
| Transfer.InvRun | socket_stream.cpp:77-156 | what every step of the transfer keeps |
| GoBackN.RepairedSenderDelivers | socket_stream.cpp:143-151 | with an advance of i + 1, in every run in which no 255 has matched an unused slot, delivery is in order and a returned length means all bytes were delivered; a 255 cannot match if none of the last three numbers is 255 |
| GoBackN.RepairedWritesDeliver | socket_stream.cpp:77-158 | the same for any number of writes, with frames and ACKs of earlier ones still under way, as long as none was called after a failure |
| GoBackN.FirstAnswerIsSafe | socket_stream.cpp:143-151 | as coded, the first answered wait of a write goes on behind delivered bytes, with the acknowledged number minus 1 |
| ShortWrites.ShortWritesInOrder | socket_stream.cpp:77-158 | as coded, in all runs of a write of at most two frames from an aligned start the receiver has a prefix of the bytes, answers, wrong matches and wraps included |
| ShortWrites.TrustworthyIsSafe | socket_stream.cpp:77-158 | as coded, a write of one frame, or of two behind 254, has delivered what it returns |
| ClientEnd.WriteNeverSucceeds | client.cpp:108 | as coded, in all runs a write to a client that has recorded 254 or 255 does not return its length, and the client appends the first frame at most |
| LongWrites.LongWriteMayLose | socket_stream.cpp:149 | as coded, any other write can return its length with only the first frame delivered, or the first two behind 254, unless the receiver is a client at 254 or 255 |
| LongWrites.SecondWriteMayLose | socket_stream.cpp:149 | as coded, after a successful write of one frame any second write can return its length with nothing delivered |
| LongWrites.TrustedExactly | socket_stream.cpp:77-158 | as coded, from every aligned start write's success can be trusted in all runs if and only if the bytes fit one frame, or two behind 254, or the receiver is a client at 254 or 255 |
| LongWrites.LongWriteOutOfOrder | socket_stream.cpp:149 | as coded, every write of more than two frames has a run in which the receiver appends the third frame's bytes behind the first one's, or the first one's again behind 254, unless it is a client at 254 or 255 |
| LongWrites.InOrderExactly | socket_stream.h:60-68 | as coded, from every aligned start the receiver has a prefix of the bytes in all runs of all writes of n bytes if and only if n bytes take at most two frames, or it is a client at 254 or 255 |
| Lossless.LosslessReturns | socket_stream.cpp:97-156 | a run that loses nothing and whose waits end on the ACK of the last frame returns the length, if every burst can end so |
| Lossless.RepairedArrives | socket_stream.cpp:143-151 | with an advance of i + 1, all bytes of such a write arrive, whatever their number |
| LosslessRuns.LosslessLoses | socket_stream.cpp:149 | as coded, in all runs that lose nothing and whose waits end on the ACK of the last frame, a returned length means that the receiver has all bytes except the first frame of every burst but the first; and only a write whose every burst can end so returns it |
| LosslessRuns.LosslessExactly | socket_stream.cpp:149 | as coded, in all these runs a returned length can be trusted if and only if one burst holds the bytes or no such run returns |
| Lagging.LaggingForever | socket_stream.cpp:101 | a sender whose receiver waits behind a number that is foreign to it never delivers a byte in any number of writes, and each that ends fails |
| Lagging.NothingCrossesExactly | socket_stream.cpp:101 | nothing crosses in any run of any write if and only if the receiver's number is neither the sender's nor one of the four behind it nor 255, or it is a client at 255 |
| Duplex.NothingEverCrosses | socket_stream.cpp:226 | in all runs of two new ends that connect, accept, write and close at any time over lossy links, with at most 250 connects, no byte crosses in either direction and every write that ends returns ACK_OUT_OF_SEQUENCE |
| ManySyns.OneTooMany | socket_stream.cpp:226 | a run with 251 connects in which a write returns its length with nothing delivered, and of the next one the server appends the third frame first |
| ManySyns.NothingCrossesExactly | socket_stream.cpp:226 | no byte crosses in all runs with at most n connects if and only if n is at most 250 |

## Left out

- Serial drivers, flush, the Arduino and Node bindings, real clocks, ping timing and address list timeouts.
- Datagram::write: it fills 58-byte chunks (datagram.cpp:41) into a list with room for 54, so its effect is up to the etk library.
- Memory effects of frames with a size byte above 62 on the 64-byte buffer; the parser is modelled with 256 cells.
- SocketStream::read and Socket::read, with the disconnection after three empty reads.
- Third parties that send to a stream's port: picolan.h:302 would redirect the connection to them. The statements of Opening and Calls about whole calls are for datagrams from the end's own remote.
- Switches, and the ttl field that only they would change.
- Overflow of the ring buffer; frames are acknowledged whether or not there is room.
- The float, 64-bit and string codecs, which no packet uses; the reply handlers of the interface.
- Sockets.Interface.DatagramHandler: delivers to datagram sockets; the delivery to stream sockets is in Streams.SocketStream.ReadBatch.
- GoBackN.RepairedSenderDelivers: claims nothing of runs in which a 255 has matched an unused slot, because the sentinel is not repaired with the advance.
- GoBackN.RepairedWritesDeliver: as before, and claims nothing once write has been called after a failure, because the receiver may have taken frames of the failed write.
- Lagging.NothingCrossesExactly: for a last ACK that is the sender's own number or foreign to it, as for the aligned start; other values would be mistaken for answers from the beginning.
- Receiving.ClientSimulatesServer: for endpoints that are open; the other states differ by design.
