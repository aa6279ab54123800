/** A client and a server that connect and write to each other, both as the source has it, over two lossy
    FIFO links: the handshake of module Handshake with the sender of module Writing at each end. */
module Duplex {
  import opened Bytes
  import opened Endpoints
  import opened Links
  import opened Writing
  import opened Handshake

  /** A call of write, under way as long as it has no result. */
  datatype Call = Call(bytes: seq<byte>, w: Writer)
  {
    predicate Busy() {
      w.result.None?
    }

    predicate Sane() {
      && w.pos <= |bytes| && w.initial <= |bytes| && w.sent <= w.toSend <= BURST
      && forall i | 0 <= i < BURST :: w.slots[i].pos <= |bytes|
    }
  }

  /** The connection and the latest call of write at each end. */
  datatype Both = Both(h: Sys, client: Option<Call>, server: Option<Call>)
  {
    predicate ClientBusy() {
      client.Some? && client.value.Busy()
    }

    predicate ServerBusy() {
      server.Some? && server.value.Busy()
    }
  }

  /** A step of the handshake, or one of write at either end. */
  datatype Move =
    | Shake(step: Step)
    | ClientWrite(bytes: seq<byte>) | ClientSend | ClientEndWait
    | ServerWrite(data: seq<byte>) | ServerSend | ServerEndWait

  predicate ClientCall(step: Step) {
    step.ConnectStart? || step.ConnectTimeout? || step.ConnectFinish? || step.ClientDisconnect?
  }

  predicate ServerCall(step: Step) {
    step.ServerListen? || step.AcceptStart? || step.AcceptTimeout? || step.AcceptFinish? || step.ServerDisconnect?
  }

  /** The frame that a call sends next, and the end of its wait. */
  predicate CanSend(call: Option<Call>) {
    call.Some? && call.value.Busy() && call.value.Sane() && call.value.w.sent < call.value.w.toSend
  }

  predicate CanEnd(call: Option<Call>) {
    call.Some? && call.value.Busy() && call.value.Sane() && call.value.w.sent == call.value.w.toSend
  }

  function AfterSend(call: Call): Call
    requires CanSend(Some(call))
  {
    call.(w := SendFrame(call.w, |call.bytes|))
  }

  function AfterWait(call: Call, ack: byte): Call
    requires CanEnd(Some(call))
  {
    call.(w := Conclude(call.w, ack, 0, |call.bytes|))
  }

  /** One atomic step. While a call of write is under way, its end does nothing else but receive; data goes
      out by write alone. */
  function Proceed(x: Both, m: Move): Both {
    match m
    case Shake(step) =>
      if step.ClientData? || step.ServerData?
         || (x.ClientBusy() && ClientCall(step)) || (x.ServerBusy() && ServerCall(step)) then x
      else x.(h := Apply(x.h, step))
    case ClientWrite(bytes) =>
      if x.h.connecting || !x.h.c.state.Open? || x.ClientBusy() || bytes == [] then x
      else x.(client := Some(Call(bytes, Writing.Start(x.h.c.seqNo, |bytes|))))
    case ClientSend =>
      if !CanSend(x.client) then x
      else
        var call := x.client.value;
        x.(client := Some(AfterSend(call)), h := x.h.ByClient(Act(x.h.c, [FrameOf(call.w, call.bytes)])))
    case ClientEndWait =>
      if !CanEnd(x.client) then x
      else
        var call := AfterWait(x.client.value, x.h.c.lastAck);
        x.(client := Some(call), h := x.h.(c := x.h.c.(seqNo := call.w.seqNo)))
    case ServerWrite(bytes) =>
      if x.h.accepting || !x.h.s.state.Open? || x.ServerBusy() || bytes == [] then x
      else x.(server := Some(Call(bytes, Writing.Start(x.h.s.seqNo, |bytes|))))
    case ServerSend =>
      if !CanSend(x.server) then x
      else
        var call := x.server.value;
        x.(server := Some(AfterSend(call)), h := x.h.ByServer(Act(x.h.s, [FrameOf(call.w, call.bytes)])))
    case ServerEndWait =>
      if !CanEnd(x.server) then x
      else
        var call := AfterWait(x.server.value, x.h.s.lastAck);
        x.(server := Some(call), h := x.h.(s := x.h.s.(seqNo := call.w.seqNo)))
  }

  function ProceedAll(x: Both, ms: seq<Move>): Both {
    if ms == [] then x else Proceed(ProceedAll(x, ms[..|ms| - 1]), ms[|ms| - 1])
  }

  /** Both ends as their constructor leaves them. */
  predicate New(x: Both) {
    && Fresh(x.h) && x.client.None? && x.server.None?
    && x.h.c.seqNo == x.h.s.seqNo == 1 && x.h.c.lastAck == x.h.s.lastAck == 0
  }

  function ConnectCalls(ms: seq<Move>): nat {
    if ms == [] then 0 else ConnectCalls(ms[..|ms| - 1]) + if ms[|ms| - 1] == Shake(ConnectStart) then 1 else 0
  }

  /** The largest number of SYNs of the client for which the numbers of frames stay ahead of all that is
      acknowledged. */
  const MANY := 250

  /** The end with number `mine` has sent the messages `ms`: SYNs with earlier numbers, frames with numbers
      more than one ahead of every SYN before them, and ACKs of SYNs of the other end, whose number is
      `theirs`. */
  predicate Link(ms: seq<Message>, mine: byte, theirs: byte) {
    && (forall i | 0 <= i < |ms| :: ms[i].Syn? ==> ms[i].seqNo < mine)
    && (forall i | 0 <= i < |ms| :: ms[i].Ack? ==> ms[i].seqNo < theirs)
    && (forall i, j | 0 <= i < j < |ms| && ms[i].Syn? && ms[j].Data? :: ms[j].seqNo >= ms[i].seqNo + 2)
  }

  /** An end that has recorded a SYN of number `n` accepts none of the frames on the way to it. */
  predicate Deaf(ms: seq<Message>, n: byte) {
    forall i | 0 <= i < |ms| && ms[i].Data? :: ms[i].seqNo >= n + 2
  }

  /** What a call of write satisfies at an end with number `mine`. */
  predicate Failing(call: Option<Call>, mine: byte) {
    call.Some? ==>
      var w := call.value.w;
      && (w.result.Some? ==> w.result == Some(ACK_OUT_OF_SEQUENCE))
      && (w.result.None? ==> w.seqNo == mine && mine >= 2 && MidBurst(w, |call.value.bytes|))
  }

  predicate HasSyn(e: Endpoint) {
    e.state.SynRecved? || e.state.Open?
  }

  predicate ClientHalf(x: Both) {
    var h := x.h;
    && h.c.lastAck < h.c.seqNo <= MANY + 1 && Failing(x.client, h.c.seqNo)
    && (!h.c.state.Closed? ==> h.c.seqNo >= 2)
    && (HasSyn(h.c) ==> h.c.remoteSeq < h.s.seqNo && Deaf(h.down, h.c.remoteSeq))
  }

  predicate ServerHalf(x: Both) {
    var h := x.h;
    && h.s.lastAck < h.s.seqNo <= MANY + 1 && Failing(x.server, h.s.seqNo)
    && (h.s.state.Pending? || h.s.state.Open? ==> h.s.seqNo >= 2)
    && (Engaged(h.s) ==> h.s.remoteSeq < h.c.seqNo && Deaf(Messages(h.up), h.s.remoteSeq))
  }

  predicate BothLinks(x: Both) {
    Link(Messages(x.h.up), x.h.c.seqNo, x.h.s.seqNo) && Link(x.h.down, x.h.s.seqNo, x.h.c.seqNo)
  }

  function Syns(ms: seq<Message>): nat {
    if ms == [] then 0 else Syns(ms[..|ms| - 1]) + if ms[|ms| - 1].Syn? then 1 else 0
  }

  /** The server answers no more SYNs than the client has sent. */
  predicate Answering(x: Both) {
    x.h.s.seqNo + Syns(Messages(x.h.up)) + (if x.h.s.state.SynRecved? then 1 else 0) <= x.h.c.seqNo
  }

  /** What holds as long as the client has not sent more than MANY SYNs. */
  predicate Barren(x: Both, c: seq<byte>, s: seq<byte>) {
    ClientHalf(x) && ServerHalf(x) && BothLinks(x) && x.h.c.ring == c && x.h.s.ring == s
  }

  lemma SynsAppend(ms: seq<Message>, m: Message)
    ensures Syns(ms + [m]) == Syns(ms) + if m.Syn? then 1 else 0
  {
    assert (ms + [m])[..|ms|] == ms;
  }

  lemma DropInFront(ms: seq<Message>, i: nat)
    requires i + 1 < |ms|
    ensures Drop(ms, i) == Drop(ms[..|ms| - 1], i) + [ms[|ms| - 1]]
  {
  }

  lemma {:induction false} SynsDrop(ms: seq<Message>, i: nat)
    ensures Syns(Drop(ms, i)) == Syns(ms) - if i < |ms| && ms[i].Syn? then 1 else 0
    decreases |ms|
  {
    if i + 1 < |ms| {
      var rest := ms[..|ms| - 1];
      SynsDrop(rest, i);
      DropInFront(ms, i);
      SynsAppend(Drop(rest, i), ms[|ms| - 1]);
    } else if i < |ms| {
      assert Drop(ms, i) == ms[..|ms| - 1];
    }
  }

  /** A message that keeps the order on its link. */
  predicate Fits(ms: seq<Message>, m: Message, mine: byte, theirs: byte) {
    && (m.Syn? ==> m.seqNo < mine) && (m.Ack? ==> m.seqNo < theirs) && (m.Data? ==> m.seqNo >= mine + 1)
  }

  lemma LinkGrows(ms: seq<Message>, m: Message, mine: byte, theirs: byte, n: byte)
    requires Link(ms, mine, theirs) && Fits(ms, m, mine, theirs)
    ensures Link(ms + [m], mine, theirs)
    ensures n < mine && Deaf(ms, n) ==> Deaf(ms + [m], n)
  {
  }

  lemma LinkShrinks(ms: seq<Message>, i: nat, mine: byte, theirs: byte, n: byte)
    requires Link(ms, mine, theirs)
    ensures Link(Drop(ms, i), mine, theirs)
    ensures Deaf(ms, n) ==> Deaf(Drop(ms, i), n)
  {
  }

  lemma FirstLeaves(ms: seq<Message>, mine: byte, theirs: byte, n: byte)
    requires Link(ms, mine, theirs) && ms != []
    ensures Link(ms[1..], mine, theirs)
    ensures Deaf(ms, n) ==> Deaf(ms[1..], n)
    ensures ms[0].Syn? ==> Deaf(ms[1..], ms[0].seqNo)
  {
    forall i | 0 <= i < |ms[1..]|
      ensures ms[1..][i] == ms[i + 1]
    {
    }
  }

  lemma LinkAges(ms: seq<Message>, mine: byte, theirs: byte, mine': byte, theirs': byte)
    requires Link(ms, mine, theirs) && mine <= mine' && theirs <= theirs'
    ensures Link(ms, mine', theirs')
  {
  }

  lemma MessagesAppend(ts: seq<Tagged>, at: nat, ms: seq<Message>)
    ensures Messages(ts + Tag(at, ms)) == Messages(ts) + ms
  {
  }

  lemma MessagesDrop(ts: seq<Tagged>, i: nat)
    ensures Messages(Drop(ts, i)) == Drop(Messages(ts), i)
  {
  }

  /** A frame of a failing call. */
  lemma FailingSends(call: Call, mine: byte)
    requires Failing(Some(call), mine) && CanSend(Some(call)) && mine <= MANY + 1
    ensures Failing(Some(AfterSend(call)), mine)
    ensures var f := FrameOf(call.w, call.bytes); f.Data? && f.seqNo >= mine + 1
  {
    MidSends(call.w, call.bytes);
    NumberAfter(mine, call.w.sent + 1);
  }

  lemma NumberAfter(mine: byte, i: nat)
    requires 0 < i <= BURST && mine <= MANY + 1
    ensures Plus(mine, i) == mine + i
  {
  }

  /** No ACK that an end hears answers a frame of it. */
  lemma FailingWaits(call: Call, mine: byte, ack: byte)
    requires Failing(Some(call), mine) && CanEnd(Some(call)) && ack < mine <= MANY + 1
    ensures Failing(Some(AfterWait(call, ack)), mine) && AfterWait(call, ack).w.seqNo == mine
  {
    MidEnds(call.w, |call.bytes|);
    assert Ahead(mine, ack) == 255 + ack - mine;
    ConcludeMatch(AtStart(call.w, |call.bytes|), ack, 0, |call.bytes|);
  }

  lemma FailingStarts(bytes: seq<byte>, mine: byte)
    requires bytes != [] && mine >= 2
    ensures Failing(Some(Call(bytes, Writing.Start(mine, |bytes|))), mine)
  {
    MidStarts(Writing.Start(mine, |bytes|), |bytes|);
  }

  lemma WriteKeepsBarren(x: Both, c: seq<byte>, s: seq<byte>, m: Move)
    requires Barren(x, c, s) && !m.Shake?
    ensures Barren(Proceed(x, m), c, s)
  {
    match m
    case ClientWrite(bytes) => if bytes != [] && x.h.c.seqNo >= 2 { FailingStarts(bytes, x.h.c.seqNo); }
    case ServerWrite(bytes) => if bytes != [] && x.h.s.seqNo >= 2 { FailingStarts(bytes, x.h.s.seqNo); }
    case ClientSend =>
      if CanSend(x.client) {
        var call := x.client.value;
        FailingSends(call, x.h.c.seqNo);
        MessagesAppend(x.h.up, |x.h.log|, [FrameOf(call.w, call.bytes)]);
        LinkGrows(Messages(x.h.up), FrameOf(call.w, call.bytes), x.h.c.seqNo, x.h.s.seqNo, x.h.s.remoteSeq);
      }
    case ServerSend =>
      if CanSend(x.server) {
        var call := x.server.value;
        FailingSends(call, x.h.s.seqNo);
        LinkGrows(x.h.down, FrameOf(call.w, call.bytes), x.h.s.seqNo, x.h.c.seqNo, x.h.c.remoteSeq);
      }
    case ClientEndWait => if CanEnd(x.client) { FailingWaits(x.client.value, x.h.c.seqNo, x.h.c.lastAck); }
    case ServerEndWait => if CanEnd(x.server) { FailingWaits(x.server.value, x.h.s.seqNo, x.h.s.lastAck); }
  }

  /** What a message does to a server that is engaged with an earlier SYN, or listens. */
  lemma ServerIsDeaf(e: Endpoint, m: Message, number: byte)
    requires (m.Syn? ==> m.seqNo < number) && (m.Ack? ==> m.seqNo < e.seqNo) && number <= MANY + 1
    requires e.lastAck < e.seqNo
    requires Engaged(e) ==> e.remoteSeq < number && (m.Data? ==> m.seqNo >= e.remoteSeq + 2)
    ensures var act := ServerTakes(e, m);
      && act.ep.ring == e.ring && act.ep.lastAck < act.ep.seqNo == e.seqNo
      && (act.ep.state.Pending? || act.ep.state.Open? ==> e.state.Pending? || e.state.Open?)
      && (act.out == [] || (act.out == [Ack(e.remoteSeq)] && Engaged(e)))
      && (Engaged(act.ep) ==>
          if Engaged(e) then act.ep.remoteSeq == e.remoteSeq else m.Syn? && act.ep.remoteSeq == m.seqNo)
  {
  }

  lemma ClientIsDeaf(e: Endpoint, m: Message, number: byte)
    requires (m.Syn? ==> m.seqNo < number) && (m.Ack? ==> m.seqNo < e.seqNo) && number <= MANY + 1
    requires e.lastAck < e.seqNo
    requires HasSyn(e) ==> e.remoteSeq < number && (m.Data? ==> m.seqNo >= e.remoteSeq + 2)
    ensures var act := ClientTakes(e, m);
      && act.ep.ring == e.ring && act.ep.lastAck < act.ep.seqNo == e.seqNo
      && (!act.ep.state.Closed? ==> !e.state.Closed?)
      && (act.out == [] || (act.out == [Ack(e.remoteSeq)] && HasSyn(e)))
      && (HasSyn(act.ep) ==>
          if HasSyn(e) then act.ep.remoteSeq == e.remoteSeq else m.Syn? && act.ep.remoteSeq == m.seqNo)
  {
  }

  lemma DeliverUpKeepsBarren(x: Both, c: seq<byte>, s: seq<byte>)
    requires Barren(x, c, s)
    ensures Barren(Proceed(x, Shake(DeliverUp)), c, s)
  {
    var h := x.h;
    if h.up != [] {
      var m := h.up[0].msg;
      assert m == Messages(h.up)[0] && Messages(h.up[1..]) == Messages(h.up)[1..];
      FirstLeaves(Messages(h.up), h.c.seqNo, h.s.seqNo, h.s.remoteSeq);
      ServerIsDeaf(h.s, m, h.c.seqNo);
      SentKeepsDown(x, ServerTakes(h.s, m).out);
    }
  }

  lemma SentKeepsDown(x: Both, out: seq<Message>)
    requires BothLinks(x) && |out| <= 1
    requires out != [] ==> Fits(x.h.down, out[0], x.h.s.seqNo, x.h.c.seqNo)
    ensures Link(x.h.down + out, x.h.s.seqNo, x.h.c.seqNo)
    ensures x.h.c.remoteSeq < x.h.s.seqNo && Deaf(x.h.down, x.h.c.remoteSeq) ==> Deaf(x.h.down + out, x.h.c.remoteSeq)
  {
    if out != [] {
      LinkGrows(x.h.down, out[0], x.h.s.seqNo, x.h.c.seqNo, x.h.c.remoteSeq);
    } else {
      assert x.h.down + out == x.h.down;
    }
  }

  lemma SentKeepsUp(x: Both, out: seq<Message>)
    requires BothLinks(x) && |out| <= 1
    requires out != [] ==> Fits(Messages(x.h.up), out[0], x.h.c.seqNo, x.h.s.seqNo)
    ensures Messages(x.h.up + Tag(|x.h.log|, out)) == Messages(x.h.up) + out
    ensures Link(Messages(x.h.up) + out, x.h.c.seqNo, x.h.s.seqNo)
    ensures x.h.s.remoteSeq < x.h.c.seqNo && Deaf(Messages(x.h.up), x.h.s.remoteSeq) ==>
      Deaf(Messages(x.h.up) + out, x.h.s.remoteSeq)
  {
    MessagesAppend(x.h.up, |x.h.log|, out);
    if out != [] {
      LinkGrows(Messages(x.h.up), out[0], x.h.c.seqNo, x.h.s.seqNo, x.h.s.remoteSeq);
    } else {
      assert Messages(x.h.up) + out == Messages(x.h.up);
    }
  }

  lemma DeliverDownKeepsBarren(x: Both, c: seq<byte>, s: seq<byte>)
    requires Barren(x, c, s)
    ensures Barren(Proceed(x, Shake(DeliverDown)), c, s)
  {
    var h := x.h;
    if h.down != [] {
      var m := h.down[0];
      FirstLeaves(h.down, h.s.seqNo, h.c.seqNo, h.c.remoteSeq);
      ClientIsDeaf(h.c, m, h.s.seqNo);
      SentKeepsUp(x, ClientTakes(h.c, m).out);
    }
  }

  lemma ConnectKeepsBarren(x: Both, c: seq<byte>, s: seq<byte>)
    requires Barren(x, c, s) && !x.ClientBusy() && x.h.c.seqNo <= MANY
    ensures Barren(Proceed(x, Shake(ConnectStart)), c, s)
  {
    var h, n, y := x.h, x.h.c.seqNo, Proceed(x, Shake(ConnectStart));
    if y != x {
      MessagesAppend(h.up, |h.log|, [Syn(n, h.c.port)]);
      LinkAges(Messages(h.up), n, h.s.seqNo, n + 1, h.s.seqNo);
      LinkAges(h.down, h.s.seqNo, n, h.s.seqNo, n + 1);
      LinkGrows(Messages(h.up), Syn(n, h.c.port), n + 1, h.s.seqNo, h.s.remoteSeq);
      assert Messages(y.h.up) == Messages(h.up) + [Syn(n, h.c.port)] && y.h.c.seqNo == n + 1;
    }
  }

  lemma AcceptKeepsBarren(x: Both, c: seq<byte>, s: seq<byte>)
    requires Barren(x, c, s) && Answering(x) && !x.ServerBusy()
    ensures Barren(Proceed(x, Shake(AcceptStart)), c, s)
  {
    var h, n, y := x.h, x.h.s.seqNo, Proceed(x, Shake(AcceptStart));
    if y != x {
      LinkAges(h.down, n, h.c.seqNo, n + 1, h.c.seqNo);
      LinkAges(Messages(h.up), h.c.seqNo, n, h.c.seqNo, n + 1);
      LinkGrows(h.down, Ack(h.s.remoteSeq), n + 1, h.c.seqNo, h.c.remoteSeq);
      LinkGrows(h.down + [Ack(h.s.remoteSeq)], Syn(n, h.s.port), n + 1, h.c.seqNo, h.c.remoteSeq);
      assert y.h.down == h.down + [Ack(h.s.remoteSeq)] + [Syn(n, h.s.port)];
    }
  }

  lemma ClientCallKeepsBarren(x: Both, c: seq<byte>, s: seq<byte>, step: Step)
    requires Barren(x, c, s) && !x.ClientBusy()
    requires (step.ConnectTimeout? || step.ConnectFinish? || step.ClientDisconnect?)
    ensures Barren(Proceed(x, Shake(step)), c, s)
  {
    SentKeepsUp(x, []);
    SentKeepsUp(x, [Close(x.h.c.seqNo)]);
    if HasSyn(x.h.c) {
      SentKeepsUp(x, [Ack(x.h.c.remoteSeq)]);
    }
  }

  lemma ServerCallKeepsBarren(x: Both, c: seq<byte>, s: seq<byte>, step: Step)
    requires Barren(x, c, s) && !x.ServerBusy()
    requires step.ServerListen? || step.AcceptTimeout? || step.AcceptFinish? || step.ServerDisconnect?
    ensures Barren(Proceed(x, Shake(step)), c, s)
  {
    SentKeepsDown(x, []);
    SentKeepsDown(x, [Close(x.h.s.seqNo)]);
  }

  lemma LossKeepsBarren(x: Both, c: seq<byte>, s: seq<byte>, step: Step)
    requires Barren(x, c, s) && (step.LoseUp? || step.LoseDown?)
    ensures Barren(Proceed(x, Shake(step)), c, s)
  {
    match step
    case LoseUp(i) =>
      LinkShrinks(Messages(x.h.up), i, x.h.c.seqNo, x.h.s.seqNo, x.h.s.remoteSeq);
      MessagesDrop(x.h.up, i);
    case LoseDown(i) =>
      LinkShrinks(x.h.down, i, x.h.s.seqNo, x.h.c.seqNo, x.h.c.remoteSeq);
  }

  lemma MoveKeepsBarren(x: Both, c: seq<byte>, s: seq<byte>, m: Move)
    requires Barren(x, c, s) && Answering(x)
    requires m == Shake(ConnectStart) ==> x.h.c.seqNo <= MANY
    ensures Barren(Proceed(x, m), c, s)
  {
    match m
    case Shake(DeliverUp) => DeliverUpKeepsBarren(x, c, s);
    case Shake(DeliverDown) => DeliverDownKeepsBarren(x, c, s);
    case Shake(ConnectStart) => if !x.ClientBusy() { ConnectKeepsBarren(x, c, s); }
    case Shake(AcceptStart) => if !x.ServerBusy() { AcceptKeepsBarren(x, c, s); }
    case Shake(LoseUp(_)) => LossKeepsBarren(x, c, s, m.step);
    case Shake(LoseDown(_)) => LossKeepsBarren(x, c, s, m.step);
    case Shake(ClientData(_, _)) =>
    case Shake(ServerData(_, _)) =>
    case Shake(step) =>
      if ClientCall(step) && !x.ClientBusy() {
        ClientCallKeepsBarren(x, c, s, step);
      } else if ServerCall(step) && !x.ServerBusy() {
        ServerCallKeepsBarren(x, c, s, step);
      }
    case _ => WriteKeepsBarren(x, c, s, m);
  }

  lemma UpGrows(x: Both, m: Message)
    ensures Syns(Messages(x.h.up + Tag(|x.h.log|, [m]))) == Syns(Messages(x.h.up)) + if m.Syn? then 1 else 0
    ensures Messages(x.h.up + Tag(|x.h.log|, [])) == Messages(x.h.up)
  {
    MessagesAppend(x.h.up, |x.h.log|, [m]);
    SynsAppend(Messages(x.h.up), m);
  }

  /** Sending anything but a SYN, or receiving at the client, leaves the count alone. */
  lemma CountStays(x: Both, y: Both, m: Message)
    requires Answering(x) && !m.Syn? && y.h.s == x.h.s && y.h.c.seqNo == x.h.c.seqNo
    requires y.h.up == x.h.up || y.h.up == x.h.up + Tag(|x.h.log|, []) || y.h.up == x.h.up + Tag(|x.h.log|, [m])
    ensures Answering(y)
  {
    UpGrows(x, m);
  }

  lemma ConnectKeepsAnswering(x: Both)
    requires Answering(x) && x.h.c.seqNo <= MANY
    ensures Answering(Proceed(x, Shake(ConnectStart)))
  {
    UpGrows(x, Syn(x.h.c.seqNo, x.h.c.port));
  }

  lemma ServerCounts(e: Endpoint, m: Message)
    ensures var act := ServerTakes(e, m);
      act.ep.seqNo == e.seqNo && (act.ep.state.SynRecved? ==> e.state.SynRecved? || m.Syn?)
  {
  }

  lemma FirstSynLeaves(x: Both)
    requires x.h.up != []
    ensures Syns(Messages(x.h.up)) == Syns(Messages(x.h.up[1..])) + if x.h.up[0].msg.Syn? then 1 else 0
  {
    var ms := Messages(x.h.up);
    SynsDrop(ms, 0);
    assert Drop(ms, 0) == ms[1..] == Messages(x.h.up[1..]);
  }

  lemma DeliverUpKeepsAnswering(x: Both)
    requires Answering(x)
    ensures Answering(Proceed(x, Shake(DeliverUp)))
  {
    if x.h.up != [] {
      FirstSynLeaves(x);
      ServerCounts(x.h.s, x.h.up[0].msg);
      var y := Proceed(x, Shake(DeliverUp));
      assert y.h.up == x.h.up[1..] && y.h.s == ServerTakes(x.h.s, x.h.up[0].msg).ep && y.h.c == x.h.c;
    }
  }

  lemma WriteKeepsAnswering(x: Both, c: seq<byte>, s: seq<byte>, m: Move)
    requires Barren(x, c, s) && Answering(x) && !m.Shake?
    ensures Answering(Proceed(x, m))
  {
    match m
    case ClientSend =>
      if CanSend(x.client) {
        CountStays(x, Proceed(x, m), FrameOf(x.client.value.w, x.client.value.bytes));
      }
    case ClientEndWait => if CanEnd(x.client) { FailingWaits(x.client.value, x.h.c.seqNo, x.h.c.lastAck); }
    case ServerEndWait => if CanEnd(x.server) { FailingWaits(x.server.value, x.h.s.seqNo, x.h.s.lastAck); }
    case _ =>
  }

  lemma ClientSendsNoSyn(e: Endpoint, m: Message) returns (ack: Message)
    ensures var act := ClientTakes(e, m); !ack.Syn? && act.ep.seqNo == e.seqNo && (act.out == [] || act.out == [ack])
  {
    var act := ClientTakes(e, m);
    ack := Ack(act.ep.remoteSeq);
  }

  lemma DeliverDownKeepsAnswering(x: Both)
    requires Answering(x)
    ensures Answering(Proceed(x, Shake(DeliverDown)))
  {
    if x.h.down != [] {
      var ack := ClientSendsNoSyn(x.h.c, x.h.down[0]);
      CountStays(x, Proceed(x, Shake(DeliverDown)), ack);
    }
  }

  lemma LossKeepsAnswering(x: Both, i: nat)
    requires Answering(x)
    ensures Answering(Proceed(x, Shake(LoseUp(i))))
  {
    SynsDrop(Messages(x.h.up), i);
    MessagesDrop(x.h.up, i);
  }

  lemma CallKeepsAnswering(x: Both, step: Step)
    requires Answering(x) && (step.ConnectTimeout? || step.ConnectFinish? || step.ClientDisconnect?)
    ensures Answering(Proceed(x, Shake(step)))
  {
    var answer := step.ConnectFinish? && x.h.c.state.SynRecved?;
    CountStays(x, Proceed(x, Shake(step)), if answer then Ack(x.h.c.remoteSeq) else Close(x.h.c.seqNo));
  }

  lemma ServerKeepsAnswering(x: Both, step: Step)
    requires Answering(x) && x.h.s.seqNo <= MANY + 1
    requires ServerCall(step) || step.LoseDown? || step.ClientData? || step.ServerData?
    ensures Answering(Proceed(x, Shake(step)))
  {
    assert Proceed(x, Shake(step)).h.up == x.h.up && Proceed(x, Shake(step)).h.c == x.h.c;
  }

  lemma ShakeKeepsAnswering(x: Both, step: Step)
    requires Answering(x) && (step.ConnectStart? ==> x.h.c.seqNo <= MANY) && x.h.s.seqNo <= MANY + 1
    ensures Answering(Proceed(x, Shake(step)))
  {
    match step
    case ConnectStart => ConnectKeepsAnswering(x);
    case DeliverUp => DeliverUpKeepsAnswering(x);
    case LoseUp(i) => LossKeepsAnswering(x, i);
    case DeliverDown => DeliverDownKeepsAnswering(x);
    case ConnectTimeout => CallKeepsAnswering(x, step);
    case ConnectFinish => CallKeepsAnswering(x, step);
    case ClientDisconnect => CallKeepsAnswering(x, step);
    case _ => ServerKeepsAnswering(x, step);
  }

  lemma MoveKeepsAnswering(x: Both, c: seq<byte>, s: seq<byte>, m: Move)
    requires Barren(x, c, s) && Answering(x)
    requires m == Shake(ConnectStart) ==> x.h.c.seqNo <= MANY
    ensures Answering(Proceed(x, m))
  {
    match m
    case Shake(step) => ShakeKeepsAnswering(x, step);
    case _ => WriteKeepsAnswering(x, c, s, m);
  }

  /** The client's number counts the SYNs it has sent. */
  lemma NumbersCount(x: Both, c: seq<byte>, s: seq<byte>, m: Move)
    requires Barren(x, c, s)
    ensures Proceed(x, m).h.c.seqNo <= x.h.c.seqNo + if m == Shake(ConnectStart) then 1 else 0
  {
    match m
    case ClientEndWait => if CanEnd(x.client) { FailingWaits(x.client.value, x.h.c.seqNo, x.h.c.lastAck); }
    case Shake(step) => ShakeCounts(x, step);
    case _ =>
  }

  lemma ShakeCounts(x: Both, step: Handshake.Step)
    ensures Proceed(x, Shake(step)).h.c.seqNo <= x.h.c.seqNo + if step.ConnectStart? then 1 else 0
  {
  }

  lemma {:induction false} BarrenRun(x: Both, ms: seq<Move>)
    requires New(x) && ConnectCalls(ms) <= MANY
    ensures var y := ProceedAll(x, ms);
      Barren(y, x.h.c.ring, x.h.s.ring) && Answering(y) && y.h.c.seqNo <= 1 + ConnectCalls(ms)
  {
    if ms != [] {
      var n := |ms| - 1;
      var y := ProceedAll(x, ms[..n]);
      BarrenRun(x, ms[..n]);
      NumbersCount(y, x.h.c.ring, x.h.s.ring, ms[n]);
      MoveKeepsBarren(y, x.h.c.ring, x.h.s.ring, ms[n]);
      MoveKeepsAnswering(y, x.h.c.ring, x.h.s.ring, ms[n]);
    }
  }

  /** Nothing has been appended at either end. */
  predicate NothingCrossed(x: Both, y: Both) {
    y.h.c.ring == x.h.c.ring && y.h.s.ring == x.h.s.ring
  }

  /** A call of write has not succeeded. */
  predicate NoSuccess(call: Option<Call>) {
    call.Some? ==> call.value.w.result in {None, Some(ACK_OUT_OF_SEQUENCE)}
  }

  /** The start number, as the source has it: in every run of two new ends that connect, accept, write and
      disconnect in whatever way, over links that lose whatever, with at most 250 calls of connect, no byte
      ever crosses, and every write that ends returns ACK_OUT_OF_SEQUENCE. */
  lemma NothingEverCrosses(x: Both, ms: seq<Move>)
    requires New(x) && ConnectCalls(ms) <= MANY
    ensures var y := ProceedAll(x, ms); NothingCrossed(x, y) && NoSuccess(y.client) && NoSuccess(y.server)
  {
    BarrenRun(x, ms);
  }
}
