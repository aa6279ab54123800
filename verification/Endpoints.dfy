/** Connection state, stream messages, and how a server and a client handle them. */
module Endpoints {
  import opened Bytes
  import opened Packets

  datatype Role = AsServer | AsClient

  datatype ConnState = Closed | SynSent | Listening | SynRecved | Pending | Open

  const NONE := 0
  const TIMEOUT := -1
  const BAD_STATE := -2
  const ACK_OUT_OF_SEQUENCE := -3

  const ACK: byte := 0
  const SYN: byte := 1
  const DATA: byte := 2
  const CLOSE: byte := 3

  /** What the payload of a stream datagram says. */
  datatype Message =
    | Ack(seqNo: byte)
    | Syn(seqNo: byte, port: byte)
    | Data(seqNo: byte, bytes: seq<byte>)
    | Close(seqNo: byte)

  function Encode(m: Message): seq<byte> {
    match m
    case Ack(n) => [ACK, n]
    case Syn(n, port) => [SYN, n, port]
    case Data(n, bytes) => [DATA, n] + bytes
    case Close(n) => [CLOSE, n]
  }

  /** A value of the connection fields. `ring` holds the bytes put into the ring buffer, which is
      taken to have room. */
  datatype Endpoint = Endpoint(
    state: ConnState, seqNo: byte, remoteSeq: byte, remotePort: byte, lastAck: byte,
    remote: byte, port: byte, ring: seq<byte>)

  /** An endpoint after a step, and the messages it sent in it. */
  datatype Act = Act(ep: Endpoint, out: seq<Message>)

  function Next(n: byte): byte {
    (n + 1) % 256
  }

  function SendSyn(e: Endpoint): Act {
    Act(e.(seqNo := Next(e.seqNo)), [Syn(e.seqNo, e.port)])
  }

  function SendAck(e: Endpoint): Act {
    Act(e, [Ack(e.remoteSeq)])
  }

  function Disconnect(e: Endpoint): Act {
    if e.state.Closed? then Act(e, []) else Act(e.(state := Closed), [Close(e.seqNo)])
  }

  /** Appending the data bytes of an accepted frame and acknowledging. */
  function TakeData(e: Endpoint, accepted: bool, bytes: seq<byte>): Act {
    if accepted then SendAck(e.(remoteSeq := Next(e.remoteSeq), ring := e.ring + bytes)) else SendAck(e)
  }

  /** The content of a payload buffer that holds `len` bytes, as far as it carries data. */
  function DataBytes(data: seq<byte>, len: nat): seq<byte>
    requires len <= |data|
  {
    if len < 2 then [] else data[2..len]
  }

  /** Server::on_data. `data` is the payload's buffer, of which `len` cells are in use. */
  function ServerOnData(e: Endpoint, r: byte, data: seq<byte>, len: nat): Act
    requires len <= |data| == PAYLOAD_ROOM
  {
    match e.state
    case Listening =>
      Act(if data[0] == SYN
          then e.(remote := r, remoteSeq := data[1], remotePort := data[2], state := SynRecved) else e, [])
    case SynRecved =>
      Act(if len == 2 && e.remote == r && data[0] == CLOSE then e.(state := Closed) else e, [])
    case Pending =>
      Act(if e.remote != r then e
          else if data[0] == ACK then e.(state := Open)
          else if data[0] == CLOSE then e.(state := Closed) else e, [])
    case Open =>
      if e.remote != r then Act(e, [])
      else if data[0] == CLOSE then Act(e.(state := Closed), [])
      else if data[0] == ACK then Act(e.(lastAck := data[1]), [])
      else if data[0] == DATA then TakeData(e, data[1] == Next(e.remoteSeq), DataBytes(data, len))
      else Act(e, [])
    case _ => Act(e, [])
  }

  /** Client::on_data. The sequence comparison is made in `int`, so 255 has no successor. */
  function ClientOnData(e: Endpoint, r: byte, data: seq<byte>, len: nat): Act
    requires len <= |data| == PAYLOAD_ROOM
  {
    if e.remote != r then Act(e, [])
    else match e.state
      case SynSent =>
        Act(if data[0] == SYN then e.(remoteSeq := data[1], state := SynRecved)
            else if data[0] == CLOSE then e.(state := Closed) else e, [])
      case SynRecved => Act(if data[0] == CLOSE then e.(state := Closed) else e, [])
      case Open =>
        if data[0] == CLOSE then Act(e.(state := Closed), [])
        else if data[0] == ACK then Act(e.(lastAck := data[1]), [])
        else if data[0] == DATA then TakeData(e, IntSuccessor(data[1], e.remoteSeq), DataBytes(data, len))
        else Act(e, [])
      case _ => Act(e, [])
  }

  predicate IntSuccessor(n: int, m: int) {
    n == m + 1
  }

  /** What a whole message does to a server whose `remote` the dispatcher has just overwritten. */
  function ServerTakes(e: Endpoint, m: Message): Act {
    match (e.state, m)
    case (Listening, Syn(n, port)) => Act(e.(remoteSeq := n, remotePort := port, state := SynRecved), [])
    case (SynRecved, Close(_)) => Act(e.(state := Closed), [])
    case (Pending, Ack(_)) => Act(e.(state := Open), [])
    case (Pending, Close(_)) => Act(e.(state := Closed), [])
    case (Open, Ack(n)) => Act(e.(lastAck := n), [])
    case (Open, Data(n, bytes)) => TakeData(e, n == Next(e.remoteSeq), bytes)
    case (Open, Close(_)) => Act(e.(state := Closed), [])
    case _ => Act(e, [])
  }

  function ClientTakes(e: Endpoint, m: Message): Act {
    match (e.state, m)
    case (SynSent, Syn(n, _)) => Act(e.(remoteSeq := n, state := SynRecved), [])
    case (SynSent, Close(_)) => Act(e.(state := Closed), [])
    case (SynRecved, Close(_)) => Act(e.(state := Closed), [])
    case (Open, Ack(n)) => Act(e.(lastAck := n), [])
    case (Open, Data(n, bytes)) => TakeData(e, IntSuccessor(n, e.remoteSeq), bytes)
    case (Open, Close(_)) => Act(e.(state := Closed), [])
    case _ => Act(e, [])
  }

  function Takes(role: Role, e: Endpoint, m: Message): Act {
    match role
    case AsServer => ServerTakes(e, m)
    case AsClient => ClientTakes(e, m)
  }

  /** The messages that an endpoint receives, one after another, with all that it answers. */
  function TakesAll(role: Role, e: Endpoint, ms: seq<Message>): Act {
    if ms == [] then Act(e, [])
    else
      var n := |ms| - 1;
      var before := TakesAll(role, e, ms[..n]);
      var act := Takes(role, before.ep, ms[n]);
      Act(act.ep, before.out + act.out)
  }

  /** The dispatcher overwrites `remote` before on_data runs, so the source filters never reject, and
      on_data sees no byte behind the message: the raw handlers act on whole messages. */
  lemma HandlersTakeMessages(e: Endpoint, r: byte, m: Message, data: seq<byte>)
    requires |data| == PAYLOAD_ROOM && Encode(m) <= data
    ensures ServerOnData(e.(remote := r), r, data, |Encode(m)|) == ServerTakes(e.(remote := r), m)
    ensures ClientOnData(e.(remote := r), r, data, |Encode(m)|) == ClientTakes(e.(remote := r), m)
  {
    var code := Encode(m);
    assert data[0] == code[0] && data[1] == code[1];
    if m.Syn? {
      assert data[2] == code[2];
    } else if m.Data? {
      assert data[2..|code|] == code[2..] == m.bytes;
    }
  }

  /** The datagrams that carry messages from `e`. */
  function Packed(e: Endpoint, address: byte, ms: seq<Message>): (ps: seq<Packet>)
    ensures |ps| == |ms|
  {
    seq(|ms|, i requires 0 <= i < |ms| => Datagram(6, address, e.remote, e.remotePort, Encode(ms[i])))
  }

  lemma PackedAppend(e: Endpoint, address: byte, a: seq<Message>, b: seq<Message>)
    ensures Packed(e, address, a + b) == Packed(e, address, a) + Packed(e, address, b)
  {
  }

  function ConnectBegin(e: Endpoint, r: byte, port: byte): Act {
    var act := SendSyn(e.(remotePort := port, remote := r));
    act.(ep := act.ep.(state := SynSent))
  }

  /** The end of connect's loop, entered when the state is no longer SYN_SENT. */
  function ConnectEnd(e: Endpoint): Act {
    if e.state.SynRecved? then Act(e.(state := Open), [Ack(e.remoteSeq)]) else Disconnect(e)
  }

  function AcceptBegin(e: Endpoint): Act {
    Act(e.(seqNo := Next(e.seqNo), state := Pending), [Ack(e.remoteSeq), Syn(e.seqNo, e.port)])
  }

  /** The end of accept's loop, entered when the state is no longer PENDING. */
  function AcceptEnd(e: Endpoint): Act {
    if e.state.Open? then Act(e, []) else Disconnect(e)
  }

  /** A datagram as it reaches on_data. */
  datatype Incoming = Incoming(source: byte, data: seq<byte>, len: nat)
  {
    predicate Valid() {
      len <= |data| == PAYLOAD_ROOM
    }
  }

  predicate AllValid(ins: seq<Incoming>) {
    forall i | 0 <= i < |ins| :: ins[i].Valid()
  }

  /** One datagram dispatched to a client or a server. */
  function Dispatch(e: Endpoint, role: Role, d: Incoming): Act
    requires d.Valid()
  {
    var heard := e.(remote := d.source);
    match role
    case AsServer => ServerOnData(heard, d.source, d.data, d.len)
    case AsClient => ClientOnData(heard, d.source, d.data, d.len)
  }

  /** An endpoint with everything it has sent. */
  datatype Trace = Trace(ep: Endpoint, sent: seq<Packet>)
  {
    function Then(act: Act, address: byte): Trace {
      Trace(act.ep, sent + Packed(act.ep, address, act.out))
    }
  }

  /** All datagrams that one call of the interface's read brings, one after another. */
  function ReadAll(t: Trace, address: byte, role: Role, ins: seq<Incoming>): Trace
    requires AllValid(ins)
  {
    if ins == [] then t
    else
      var u := ReadAll(t, address, role, ins[..|ins| - 1]);
      u.Then(Dispatch(u.ep, role, ins[|ins| - 1]), address)
  }

  /** The polling loops of connect and accept: batches of datagrams are read until the state is no longer
      `busy`; the timeout strikes after the last batch given. */
  function Poll(t: Trace, address: byte, role: Role, busy: ConnState, batches: seq<seq<Incoming>>): (Trace, bool)
    requires forall b | b in batches :: AllValid(b)
    decreases |batches|
  {
    if batches == [] then (t, true)
    else
      var u := ReadAll(t, address, role, batches[0]);
      if |batches| == 1 then (u, true)
      else if u.ep.state != busy then (u, false)
      else Poll(u, address, role, busy, batches[1..])
  }

  /** connect, with its result. */
  function ConnectTrace(t: Trace, address: byte, role: Role, r: byte, port: byte, batches: seq<seq<Incoming>>)
    : (Trace, int)
    requires forall b | b in batches :: AllValid(b)
  {
    if !t.ep.state.Closed? then (t, BAD_STATE)
    else
      var (u, timedOut) := Poll(t.Then(ConnectBegin(t.ep, r, port), address), address, role, SynSent, batches);
      if timedOut then (u.(ep := u.ep.(state := Closed)), TIMEOUT)
      else (u.Then(ConnectEnd(u.ep), address), if u.ep.state.SynRecved? then NONE else BAD_STATE)
  }

  /** accept, with its result. */
  function AcceptTrace(t: Trace, address: byte, role: Role, batches: seq<seq<Incoming>>): (Trace, int)
    requires forall b | b in batches :: AllValid(b)
  {
    if !t.ep.state.SynRecved? then (t, BAD_STATE)
    else
      var (u, timedOut) := Poll(t.Then(AcceptBegin(t.ep), address), address, role, Pending, batches);
      if timedOut then (u.Then(Disconnect(u.ep), address), TIMEOUT)
      else (u.Then(AcceptEnd(u.ep), address), if u.ep.state.Open? then NONE else BAD_STATE)
  }
}
