/** SocketStream with the methods of Server and Client, on fields updated in place. */
module Streams {
  import opened Bytes
  import opened Packets
  import opened Endpoints
  import opened Writing

  /** Fields updated in place. `sent` collects the datagrams sent. */
  class SocketStream {
    var state: ConnState
    var sequenceNumber: byte
    var remoteSequence: byte
    var remotePort: byte
    var lastRecvedAck: byte
    var remote: byte
    const port: byte
    const address: byte
    const role: Role
    var ringbuf: seq<byte>
    var sent: seq<Packet>

    function View(): Endpoint
      reads this
    {
      Endpoint(state, sequenceNumber, remoteSequence, remotePort, lastRecvedAck, remote, port, ringbuf)
    }

    function Now(): Trace
      reads this
    {
      Trace(View(), sent)
    }

    constructor (port: byte, address: byte, role: Role)
      ensures View() == Endpoint(Closed, 1, 0, 0, 0, 0, port, []) && sent == []
      ensures this.address == address && this.role == role
    {
      this.port, this.address, this.role := port, address, role;
      state, sequenceNumber, remoteSequence, remotePort, lastRecvedAck, remote := Closed, 1, 0, 0, 0, 0;
      ringbuf, sent := [], [];
    }

    method Emit(m: Message)
      modifies this`sent
      ensures Now() == old(Now()).Then(Act(old(View()), [m]), address)
    {
      sent := sent + [Datagram(6, address, remote, remotePort, Encode(m))];
    }

    method SendSynMessage()
      modifies this`sent, this`sequenceNumber
      ensures Now() == old(Now()).Then(SendSyn(old(View())), address)
    {
      Emit(Syn(sequenceNumber, port));
      sequenceNumber := Next(sequenceNumber);
    }

    method SendAckMessage()
      modifies this`sent
      ensures Now() == old(Now()).Then(SendAck(old(View())), address)
    {
      Emit(Ack(remoteSequence));
    }

    method DisconnectNow()
      modifies this`state, this`sent
      ensures Now() == old(Now()).Then(Disconnect(old(View())), address)
      ensures state.Closed?
      ensures sent == old(sent) + if old(state).Closed? then []
                                  else [Datagram(6, address, remote, remotePort, [CLOSE, sequenceNumber])]
    {
      if state == Closed {
        return;
      }
      state := Closed;
      if state == Listening {
        return;
      }
      Emit(Close(sequenceNumber));
    }

    method Listen() returns (err: int)
      modifies this`state
      ensures err == if old(state).Closed? then NONE else BAD_STATE
      ensures View() == if old(state).Closed? then old(View()).(state := Listening) else old(View())
    {
      if state == Closed {
        state := Listening;
        return NONE;
      }
      return BAD_STATE;
    }

    method OnServerData(r: byte, data: seq<byte>, len: nat)
      requires len <= |data| == PAYLOAD_ROOM
      modifies this
      ensures Now() == old(Now()).Then(ServerOnData(old(View()), r, data, len), address)
    {
      match state
      case Closed => return;
      case Listening =>
        if data[0] == SYN {
          remote := r;
          remoteSequence := data[1];
          remotePort := data[2];
          state := SynRecved;
        }
      case SynRecved =>
        if len != 2 { return; }
        if remote != r { return; }
        if data[0] == CLOSE { state := Closed; }
      case Pending =>
        if remote != r { return; }
        if data[0] == ACK { state := Open; }
        if data[0] == CLOSE { state := Closed; }
      case Open =>
        if remote != r { return; }
        if data[0] == CLOSE { state := Closed; }
        if data[0] == ACK { lastRecvedAck := data[1]; }
        if data[0] == DATA {
          var nextSequence := Next(remoteSequence);
          if data[1] == nextSequence {
            remoteSequence := nextSequence;
            PutAll(data, len);
          }
          SendAckMessage();
        }
      case SynSent =>
    }

    method OnClientData(r: byte, data: seq<byte>, len: nat)
      requires len <= |data| == PAYLOAD_ROOM
      modifies this
      ensures Now() == old(Now()).Then(ClientOnData(old(View()), r, data, len), address)
    {
      if remote != r { return; }
      match state
      case Closed => return;
      case SynSent =>
        if data[0] == SYN {
          remoteSequence := data[1];
          state := SynRecved;
        } else if data[0] == CLOSE {
          state := Closed;
        }
      case SynRecved =>
        if data[0] == CLOSE { state := Closed; }
      case Open =>
        if data[0] == CLOSE { state := Closed; }
        if data[0] == ACK { lastRecvedAck := data[1]; }
        if data[0] == DATA {
          if IntSuccessor(data[1], remoteSequence) {
            remoteSequence := Next(remoteSequence);
            PutAll(data, len);
          }
          SendAckMessage();
        }
      case Listening =>
      case Pending =>
    }

    method PutAll(data: seq<byte>, len: nat)
      requires len <= |data|
      modifies this`ringbuf
      ensures ringbuf == old(ringbuf) + DataBytes(data, len)
    {
      var i := 2;
      while i < len
        invariant 2 <= i && (len >= 2 ==> i <= len)
        invariant ringbuf == old(ringbuf) + if len < 2 then [] else data[2..i]
      {
        ringbuf := ringbuf + [data[i]];
        i := i + 1;
      }
    }

    /** The interface's read: dispatches a batch of datagrams. */
    method ReadBatch(ins: seq<Incoming>)
      requires AllValid(ins)
      modifies this
      ensures Now() == ReadAll(old(Now()), address, role, ins)
    {
      assert ins[..0] == [];
      for i := 0 to |ins|
        invariant Now() == ReadAll(old(Now()), address, role, ins[..i])
      {
        remote := ins[i].source;
        if role.AsServer? {
          OnServerData(ins[i].source, ins[i].data, ins[i].len);
        } else {
          OnClientData(ins[i].source, ins[i].data, ins[i].len);
        }
        assert ins[..i + 1][..i] == ins[..i];
      }
      assert ins[..|ins|] == ins;
    }

    method PollWhile(busy: ConnState, batches: seq<seq<Incoming>>) returns (timedOut: bool)
      requires forall b | b in batches :: AllValid(b)
      modifies this
      ensures (Now(), timedOut) == Poll(old(Now()), address, role, busy, batches)
    {
      var i := 0;
      assert batches[0..] == batches;
      while i < |batches|
        invariant i <= |batches|
        invariant Poll(old(Now()), address, role, busy, batches) == Poll(Now(), address, role, busy, batches[i..])
      {
        var rest := batches[i..];
        assert rest[0] == batches[i] && rest[1..] == batches[i + 1..];
        ReadBatch(batches[i]);
        if i + 1 == |batches| {
          return true;
        }
        if state != busy {
          return false;
        }
        i := i + 1;
      }
      return true;
    }

    method Connect(r: byte, remotePort': byte, batches: seq<seq<Incoming>>) returns (err: int)
      requires forall b | b in batches :: AllValid(b)
      modifies this
      ensures (Now(), err) == ConnectTrace(old(Now()), address, role, r, remotePort', batches)
    {
      if state != Closed {
        return BAD_STATE;
      }
      remotePort := remotePort';
      remote := r;
      SendSynMessage();
      state := SynSent;
      var timedOut := PollWhile(SynSent, batches);
      if timedOut {
        state := Closed;
        return TIMEOUT;
      }
      if state != SynRecved {
        DisconnectNow();
        return BAD_STATE;
      }
      SendAckMessage();
      state := Open;
      return NONE;
    }

    method Accept(batches: seq<seq<Incoming>>) returns (err: int)
      requires forall b | b in batches :: AllValid(b)
      modifies this
      ensures (Now(), err) == AcceptTrace(old(Now()), address, role, batches)
    {
      if state == SynRecved {
        ghost var t := Now();
        SendAckMessage();
        SendSynMessage();
        state := Pending;
        PackedAppend(View(), address, [Ack(t.ep.remoteSeq)], [Syn(t.ep.seqNo, port)]);
        assert Now() == t.Then(AcceptBegin(t.ep), address);
        var timedOut := PollWhile(Pending, batches);
        if timedOut {
          DisconnectNow();
          return TIMEOUT;
        }
        if state != Open {
          DisconnectNow();
        } else {
          assert Now() == Now().Then(AcceptEnd(View()), address);
          return NONE;
        }
      }
      return BAD_STATE;
    }

    /** The innermost loop of write: one frame's bytes. */
    method FillPayload(bytes: seq<byte>, start: nat) returns (payload: seq<byte>, bytesPos: nat)
      requires start <= |bytes|
      ensures bytesPos == start + Min(FRAME_BYTES, |bytes| - start) && payload == bytes[start..bytesPos]
    {
      payload, bytesPos := [], start;
      for j := 0 to Min(FRAME_BYTES, |bytes| - start)
        invariant bytesPos == start + j && payload == bytes[start..bytesPos]
      {
        payload := payload + [bytes[bytesPos]];
        bytesPos := bytesPos + 1;
      }
    }

    /** One turn of the inner loop of write: the `i`-th frame of a burst. */
    method SendFrameNow(bytes: seq<byte>, start: nat, i: nat, turn: Turn, ghost w: Writer)
      returns (number: byte, bytesPos: nat)
      requires w.initial + FRAME_BYTES * i <= |bytes| && start == PosAfter(w.initial, i, |bytes|)
      requires sequenceNumber == w.seqNo && turn.Valid()
      modifies this
      ensures number == Plus(w.seqNo, i + 1) && bytesPos == PosAfter(w.initial, i + 1, |bytes|)
      ensures Now() == FrameTrace(old(Now()), address, role, w, i, turn, bytes)
    {
      number := Plus(sequenceNumber, i + 1);
      var payload;
      payload, bytesPos := FillPayload(bytes, start);
      assert Data(number, payload) == BurstFrame(w, i, bytes);
      var pack := Datagram(6, address, remote, remotePort, Encode(Data(number, payload)));
      ReadBatch(turn.Before(i));
      sent := sent + [pack];
    }

    /** The inner loop of write: one burst. */
    method SendBurst(bytes: seq<byte>, start: nat, toSend: nat, slots: array<Slot>, turn: Turn, ghost w: Writer)
      returns (bytesPos: nat, finalSeq: byte)
      requires AtBurstStart(w, |bytes|) && start == w.initial && toSend == w.toSend && sequenceNumber == w.seqNo
      requires slots.Length == BURST && slots[..] == w.slots && turn.Valid()
      modifies this, slots
      ensures bytesPos == AfterFrames(w, toSend, |bytes|).pos && slots[..] == AfterFrames(w, toSend, |bytes|).slots
      ensures finalSeq == FinalSeq(w)
      ensures Now() == BurstTrace(old(Now()), address, role, w, toSend, turn, bytes)
    {
      bytesPos, finalSeq := start, 0;
      BurstStartForm(w, |bytes|);
      for i := 0 to toSend
        invariant bytesPos == AfterFrames(w, i, |bytes|).pos && slots[..] == AfterFrames(w, i, |bytes|).slots
        invariant i > 0 ==> finalSeq == Plus(w.seqNo, i)
        invariant Now() == BurstTrace(old(Now()), address, role, w, i, turn, bytes)
      {
        BurstKeepsNumber(old(Now()), address, role, w, i, turn, bytes);
        finalSeq, bytesPos := SendFrameNow(bytes, bytesPos, i, turn, w);
        SlotFilled(w, i, |bytes|);
        ghost var before := slots[..];
        slots[i] := Slot(finalSeq, bytesPos);
        assert slots[..] == before[i := Slot(finalSeq, bytesPos)];
      }
    }

    /** The timed wait: batches are read until the ACK of the burst's final number is the last one heard. */
    method AwaitAck(polls: seq<seq<Incoming>>, finalSeq: byte)
      requires forall b | b in polls :: AllValid(b)
      modifies this
      ensures Now() == WaitTrace(old(Now()), address, role, finalSeq, polls)
    {
      var i := 0;
      assert polls[0..] == polls;
      while i < |polls|
        invariant i <= |polls|
        invariant WaitTrace(old(Now()), address, role, finalSeq, polls)
          == WaitTrace(Now(), address, role, finalSeq, polls[i..])
      {
        var rest := polls[i..];
        assert rest[0] == polls[i] && rest[1..] == polls[i + 1..];
        ReadBatch(polls[i]);
        if lastRecvedAck == finalSeq {
          return;
        }
        i := i + 1;
      }
    }

    /** The loop over the burst's slots. */
    method MatchAck(slots: array<Slot>, start: nat, ghost w: Writer) returns (foundPos: bool, bytesPos: nat)
      requires slots.Length == BURST && slots[..] == w.slots && sequenceNumber == w.seqNo && start == w.pos
      modifies this`sequenceNumber
      ensures var (v, found) := MatchUpTo(w, lastRecvedAck, 0, BURST);
        foundPos == found && bytesPos == v.pos && View() == old(View()).(seqNo := v.seqNo)
    {
      foundPos, bytesPos := false, start;
      for i := 0 to BURST
        invariant var (v, found) := MatchUpTo(w, lastRecvedAck, 0, i);
          foundPos == found && bytesPos == v.pos && View() == old(View()).(seqNo := v.seqNo)
      {
        assert slots[i] == w.slots[i];
        if lastRecvedAck == slots[i].number {
          foundPos := true;
          bytesPos := slots[i].pos;
          sequenceNumber := Plus(sequenceNumber, i);
        }
      }
    }

    /** One turn of write's outer loop. */
    method OneBurst(bytes: seq<byte>, start: nat, noAckBefore: nat, slots: array<Slot>, turn: Turn, ghost w: Writer)
      returns (r: Option<int>, bytesPos: nat, noAckCount: nat)
      requires w.result.None? && AtBurstStart(w, |bytes|) && slots.Length == BURST && turn.Valid()
      requires sequenceNumber == w.seqNo && start == w.pos && noAckBefore == w.noAck
      modifies this, slots
      ensures var (u, v) := Turned(old(Now()), address, role, w, turn, bytes);
        Now() == u && r == v.result && (r.None? ==> bytesPos == v.pos && noAckCount == v.noAck)
    {
      bytesPos, noAckCount := start, noAckBefore;
      FramesForm(|bytes| - bytesPos);
      var packetsToSend := (|bytes| - bytesPos) / FRAME_BYTES;
      if (|bytes| - bytesPos) % FRAME_BYTES != 0 {
        packetsToSend := packetsToSend + 1;
      }
      if packetsToSend > BURST {
        packetsToSend := BURST;
      }
      var initialBytePos := bytesPos;
      for i := 0 to BURST
        invariant forall k | 0 <= k < i :: slots[k] == UNUSED
        invariant Now() == old(Now())
      {
        slots[i] := UNUSED;
      }
      var finalSeq;
      bytesPos, finalSeq := SendBurst(bytes, bytesPos, packetsToSend, slots, turn, w);
      AwaitAck(turn.polls, finalSeq);
      TurnKeepsNumber(old(Now()), address, role, w, turn, bytes);
      ghost var f := AfterFrames(w, w.toSend, |bytes|);
      AfterFramesStays(w, w.toSend, |bytes|);
      MatchedPosition(f, lastRecvedAck, 0, BURST, |bytes|);
      if lastRecvedAck == sequenceNumber {
        noAckCount := noAckCount + 1;
        if noAckCount == RETRIES { return Some(TIMEOUT), bytesPos, noAckCount; }
        bytesPos := initialBytePos;
      } else {
        var found;
        found, bytesPos := MatchAck(slots, bytesPos, f);
        if !found { return Some(ACK_OUT_OF_SEQUENCE), bytesPos, noAckCount; }
      }
      r := if bytesPos == |bytes| then Some(bytesPos) else None;
    }

    /** write. `turns` are the datagrams that arrive in each turn of its loop; there is no result if more
        turns than those would be needed. */
    method Write(bytes: seq<byte>, turns: seq<Turn>) returns (r: Option<int>)
      requires forall i | 0 <= i < |turns| :: turns[i].Valid()
      modifies this
      ensures var t := old(Now());
        if !t.ep.state.Open? then r == Some(BAD_STATE) && Now() == t
        else if bytes == [] then r == Some(0) && Now() == t
        else
          var w := Start(t.ep.seqNo, |bytes|);
          var (u, acks) := WriteTrace(t, address, role, w, bytes, turns);
          Now() == u && r == WriteOn(w, |bytes|, acks).result
    {
      if state != Open { return Some(BAD_STATE); }
      if bytes == [] { return Some(0); }
      var slots := new Slot[BURST](i => UNUSED);
      var bytesPos, noAckCount := 0, 0;
      r := None;
      ghost var all := WriteTrace(Now(), address, role, Start(sequenceNumber, |bytes|), bytes, turns);
      ghost var result := WriteOn(Start(sequenceNumber, |bytes|), |bytes|, all.1).result;
      ghost var w := Start(sequenceNumber, |bytes|);
      assert turns[0..] == turns;
      var j := 0;
      while j < |turns| && r.None?
        invariant j <= |turns| && fresh(slots) && slots.Length == BURST && r == w.result
        invariant r.None? ==>
          AtBurstStart(w, |bytes|) && w.pos == bytesPos && w.noAck == noAckCount && w.seqNo == sequenceNumber
        invariant var (u, acks) := WriteTrace(Now(), address, role, w, bytes, turns[j..]);
          u == all.0 && WriteOn(w, |bytes|, acks).result == result
      {
        assert turns[j..][0] == turns[j] && turns[j..][1..] == turns[j + 1..];
        ghost var (u, v) := Turned(Now(), address, role, w, turns[j], bytes);
        TurnForm(Now(), address, role, w, turns[j], bytes);
        r, bytesPos, noAckCount := OneBurst(bytes, bytesPos, noAckCount, slots, turns[j], w);
        w := v;
        j := j + 1;
      }
    }
  }

  /** What arrives in one turn of write's loop: a batch before each frame is sent, and the batches of the
      timed wait. */
  datatype Turn = Turn(before: seq<seq<Incoming>>, polls: seq<seq<Incoming>>)
  {
    predicate Valid() {
      (forall b | b in before :: AllValid(b)) && forall b | b in polls :: AllValid(b)
    }

    function Before(i: nat): (b: seq<Incoming>)
      requires Valid()
      ensures AllValid(b)
    {
      if i < |before| then before[i] else []
    }
  }

  /** The `i`-th frame of a burst is made, then a batch is read, then it goes out. */
  function FrameTrace(t: Trace, address: byte, role: Role, w: Writer, i: nat, turn: Turn, bytes: seq<byte>): Trace
    requires w.initial <= |bytes| && turn.Valid()
  {
    var u := ReadAll(t, address, role, turn.Before(i));
    u.(sent := u.sent + [Datagram(6, address, t.ep.remote, t.ep.remotePort, Encode(BurstFrame(w, i, bytes)))])
  }

  /** The first `k` frames of a burst. */
  function BurstTrace(t: Trace, address: byte, role: Role, w: Writer, k: nat, turn: Turn, bytes: seq<byte>): Trace
    requires w.initial <= |bytes| && turn.Valid()
    decreases k
  {
    if k == 0 then t
    else FrameTrace(BurstTrace(t, address, role, w, k - 1, turn, bytes), address, role, w, k - 1, turn, bytes)
  }

  function WaitTrace(t: Trace, address: byte, role: Role, final: byte, polls: seq<seq<Incoming>>): Trace
    requires forall b | b in polls :: AllValid(b)
    decreases |polls|
  {
    if polls == [] then t
    else
      var u := ReadAll(t, address, role, polls[0]);
      if u.ep.lastAck == final then u else WaitTrace(u, address, role, final, polls[1..])
  }

  /** A turn up to the end of its wait, and then the whole turn with the sender behind it. */
  function TurnTrace(t: Trace, address: byte, role: Role, w: Writer, turn: Turn, bytes: seq<byte>): Trace
    requires w.initial <= |bytes| && turn.Valid()
  {
    WaitTrace(BurstTrace(t, address, role, w, w.toSend, turn, bytes), address, role, FinalSeq(w), turn.polls)
  }

  function Turned(t: Trace, address: byte, role: Role, w: Writer, turn: Turn, bytes: seq<byte>): (Trace, Writer)
    requires AtBurstStart(w, |bytes|) && turn.Valid()
  {
    var u := TurnTrace(t, address, role, w, turn, bytes);
    BurstStartForm(w, |bytes|);
    AfterFramesStays(w, w.toSend, |bytes|);
    var v := Conclude(AfterFrames(w, w.toSend, |bytes|), u.ep.lastAck, 0, |bytes|);
    (u.(ep := u.ep.(seqNo := v.seqNo)), v)
  }

  /** write turn by turn: all that happens, and what last_recved_ack is at the end of each wait. */
  function WriteTrace(t: Trace, address: byte, role: Role, w: Writer, bytes: seq<byte>, turns: seq<Turn>)
    : (Trace, seq<byte>)
    requires w.result.None? ==> AtBurstStart(w, |bytes|)
    requires forall i | 0 <= i < |turns| :: turns[i].Valid()
    decreases |turns|
  {
    if w.result.Some? || turns == [] then (t, [])
    else
      var (u, v) := Turned(t, address, role, w, turns[0], bytes);
      TurnForm(t, address, role, w, turns[0], bytes);
      var (last, acks) := WriteTrace(u, address, role, v, bytes, turns[1..]);
      (last, [u.ep.lastAck] + acks)
  }

  lemma TurnForm(t: Trace, address: byte, role: Role, w: Writer, turn: Turn, bytes: seq<byte>)
    requires w.result.None? && AtBurstStart(w, |bytes|) && turn.Valid()
    ensures var (u, v) := Turned(t, address, role, w, turn, bytes); v.result.None? ==> AtBurstStart(v, |bytes|)
  {
    AfterFramesStays(w, w.toSend, |bytes|);
    ConcludeForm(w, TurnTrace(t, address, role, w, turn, bytes).ep.lastAck, 0, |bytes|);
  }

  lemma {:induction false} ReadKeepsNumber(t: Trace, address: byte, role: Role, ins: seq<Incoming>)
    requires AllValid(ins)
    ensures ReadAll(t, address, role, ins).ep.seqNo == t.ep.seqNo
  {
    if ins != [] {
      ReadKeepsNumber(t, address, role, ins[..|ins| - 1]);
    }
  }

  lemma {:induction false} BurstKeepsNumber(t: Trace, address: byte, role: Role, w: Writer, k: nat, turn: Turn,
                                            bytes: seq<byte>)
    requires w.initial <= |bytes| && turn.Valid()
    ensures BurstTrace(t, address, role, w, k, turn, bytes).ep.seqNo == t.ep.seqNo
  {
    if k > 0 {
      var u := BurstTrace(t, address, role, w, k - 1, turn, bytes);
      BurstKeepsNumber(t, address, role, w, k - 1, turn, bytes);
      ReadKeepsNumber(u, address, role, turn.Before(k - 1));
    }
  }

  lemma {:induction false} WaitKeepsNumber(t: Trace, address: byte, role: Role, final: byte,
                                           polls: seq<seq<Incoming>>)
    requires forall b | b in polls :: AllValid(b)
    ensures WaitTrace(t, address, role, final, polls).ep.seqNo == t.ep.seqNo
    decreases |polls|
  {
    if polls != [] {
      ReadKeepsNumber(t, address, role, polls[0]);
      WaitKeepsNumber(ReadAll(t, address, role, polls[0]), address, role, final, polls[1..]);
    }
  }

  lemma TurnKeepsNumber(t: Trace, address: byte, role: Role, w: Writer, turn: Turn, bytes: seq<byte>)
    requires w.initial <= |bytes| && turn.Valid()
    ensures TurnTrace(t, address, role, w, turn, bytes).ep.seqNo == t.ep.seqNo
  {
    var u := BurstTrace(t, address, role, w, w.toSend, turn, bytes);
    BurstKeepsNumber(t, address, role, w, w.toSend, turn, bytes);
    WaitKeepsNumber(u, address, role, FinalSeq(w), turn.polls);
  }
}
