/** How many calls of connect it takes until bytes do cross: the bound of module Duplex is exact. */
module ManySyns {
  import opened Bytes
  import opened Endpoints
  import opened Links
  import opened Writing
  import opened Handshake
  import opened Duplex

  ghost predicate Possible(x: Both, y: Both, n: nat) {
    exists ms :: ProceedAll(x, ms) == y && ConnectCalls(ms) == n
  }

  lemma ReachStart(x: Both)
    ensures Possible(x, x, 0)
  {
    assert ProceedAll(x, []) == x;
  }

  lemma ReachMove(x: Both, y: Both, n: nat, move: Move)
    requires Possible(x, y, n)
    ensures Possible(x, Proceed(y, move), n + if move == Shake(ConnectStart) then 1 else 0)
  {
    var ms :| ProceedAll(x, ms) == y && ConnectCalls(ms) == n;
    assert (ms + [move])[..|ms|] == ms;
    assert ProceedAll(x, ms + [move]) == Proceed(y, move);
  }

  /** What all stages of the run have in common. */
  predicate Quiet(x: Both, number: byte) {
    && x.h.up == [] && x.h.down == [] && x.server.None? && !x.ClientBusy()
    && x.h.c.seqNo == number && x.h.c.lastAck == 0 && x.h.s.remoteSeq == 1
  }

  /** The server has recorded the first SYN and waits for accept; the client has given up. */
  predicate GivenUp(x: Both, number: byte) {
    && Quiet(x, number) && x.h.c.state.Closed? && !x.h.connecting
    && x.h.s.state.SynRecved? && !x.h.accepting
  }

  lemma FirstSyn(x: Both) returns (y: Both)
    requires New(x)
    ensures Possible(x, y, 1) && GivenUp(y, 2) && y.h.s.ring == x.h.s.ring
  {
    ReachStart(x);
    ReachMove(x, x, 0, Shake(ServerListen));
    ReachMove(x, Proceed(x, Shake(ServerListen)), 0, Shake(ConnectStart));
    ListenAndConnect(x);
    y := SynTaken(x, Proceed(Proceed(x, Shake(ServerListen)), Shake(ConnectStart)));
  }

  predicate FirstUnderWay(x: Both) {
    && |x.h.up| == 1 && x.h.up[0].msg.Syn? && x.h.up[0].msg.seqNo == 1 && x.h.down == []
    && x.client.None? && x.server.None? && x.h.s.state.Listening? && !x.h.accepting
    && x.h.c.seqNo == 2 && x.h.c.lastAck == 0 && x.h.c.state.SynSent? && x.h.connecting
  }

  lemma ListenAndConnect(x: Both)
    requires New(x)
    ensures var y := Proceed(Proceed(x, Shake(ServerListen)), Shake(ConnectStart));
      FirstUnderWay(y) && y.h.s.ring == x.h.s.ring
  {
    var a := Proceed(x, Shake(ServerListen));
    assert a == x.(h := x.h.(s := x.h.s.(state := Listening)));
  }

  lemma SynTaken(x: Both, b: Both) returns (y: Both)
    requires Possible(x, b, 1) && FirstUnderWay(b)
    ensures Possible(x, y, 1) && GivenUp(y, 2) && y.h.s.ring == b.h.s.ring
  {
    ReachMove(x, b, 1, Shake(DeliverUp));
    var c := Proceed(b, Shake(DeliverUp));
    ReachMove(x, c, 1, Shake(ConnectTimeout));
    y := Proceed(c, Shake(ConnectTimeout));
  }

  lemma ConnectAgain(y: Both)
    requires y.h.c.seqNo < 255 && GivenUp(y, y.h.c.seqNo)
    ensures var z, n := Proceed(y, Shake(ConnectStart)), y.h.c.seqNo;
      && z == y.(h := y.h.(c := z.h.c, up := [Tagged(|y.h.log|, Syn(n, y.h.c.port))], connecting := true,
                           log := z.h.log))
      && z.h.c.seqNo == n + 1 && z.h.c.lastAck == 0 && z.h.c.state.SynSent?
  {
    var m := Syn(y.h.c.seqNo, y.h.c.port);
    assert [] + Tag(|y.h.log|, [m]) == [Tagged(|y.h.log|, m)];
  }

  /** connect is called once more, and its SYN is lost. */
  lemma LostSyn(x: Both, y: Both, n: nat) returns (z: Both)
    requires Possible(x, y, n) && y.h.c.seqNo < 255 && GivenUp(y, y.h.c.seqNo)
    ensures Possible(x, z, n + 1) && Quiet(z, y.h.c.seqNo + 1) && z.h.c.state.SynSent? && z.h.connecting
    ensures z.h.s == y.h.s && z.h.accepting == y.h.accepting
  {
    ConnectAgain(y);
    ReachMove(x, y, n, Shake(ConnectStart));
    z := ReachLostUp(x, Proceed(y, Shake(ConnectStart)), n + 1);
  }

  /** The only message on the client's link is lost. */
  lemma ReachLostUp(x: Both, y: Both, n: nat) returns (z: Both)
    requires Possible(x, y, n) && |y.h.up| == 1
    ensures Possible(x, z, n) && z == y.(h := y.h.(up := []))
  {
    ReachMove(x, y, n, Shake(LoseUp(0)));
    z := Proceed(y, Shake(LoseUp(0)));
  }

  lemma {:induction false} ManyLost(x: Both, n: nat) returns (y: Both)
    requires New(x) && 1 <= n < 255
    ensures Possible(x, y, n) && GivenUp(y, n + 1) && y.h.s.ring == x.h.s.ring
  {
    if n == 1 {
      y := FirstSyn(x);
    } else {
      y := ManyLost(x, n - 1);
      y := LostSyn(x, y, n - 1);
      ReachMove(x, y, n, Shake(ConnectTimeout));
      y := Proceed(y, Shake(ConnectTimeout));
    }
  }

  /** Both ends are open; the client's number is far ahead of what the server has recorded. */
  predicate Apart(x: Both, number: byte) {
    Quiet(x, number) && x.h.c.state.Open? && x.h.s.state.Open? && !x.h.connecting
  }

  lemma Answer(x: Both, y: Both, n: nat) returns (z: Both)
    requires Possible(x, y, n) && Quiet(y, y.h.c.seqNo) && y.h.c.state.SynSent? && y.h.connecting
    requires y.h.s.state.SynRecved? && !y.h.accepting
    ensures Possible(x, z, n) && Quiet(z, y.h.c.seqNo) && z.h.c.state.SynRecved? && z.h.connecting
    ensures z.h.s.state.Pending? && z.h.s.ring == y.h.s.ring
  {
    ReachMove(x, y, n, Shake(AcceptStart));
    var a := Proceed(y, Shake(AcceptStart));
    assert a.h.down == [Ack(1), Syn(y.h.s.seqNo, y.h.s.port)];
    ReachMove(x, a, n, Shake(DeliverDown));
    var b := Proceed(a, Shake(DeliverDown));
    assert b.h.down == [Syn(y.h.s.seqNo, y.h.s.port)];
    ReachMove(x, b, n, Shake(DeliverDown));
    z := Proceed(b, Shake(DeliverDown));
  }

  lemma Confirm(x: Both, y: Both, n: nat) returns (z: Both)
    requires Possible(x, y, n) && Quiet(y, y.h.c.seqNo) && y.h.c.state.SynRecved? && y.h.connecting
    requires y.h.s.state.Pending?
    ensures Possible(x, z, n) && Apart(z, y.h.c.seqNo) && z.h.s.ring == y.h.s.ring
  {
    ReachMove(x, y, n, Shake(ConnectFinish));
    var a := Proceed(y, Shake(ConnectFinish));
    assert a.h.up == [Tagged(|y.h.log|, Ack(y.h.c.remoteSeq))];
    ReachMove(x, a, n, Shake(DeliverUp));
    z := Proceed(a, Shake(DeliverUp));
  }

  /** `i` frames of the client's write have been sent, and lost. */
  predicate Sending(x: Both, number: byte, bytes: seq<byte>, i: nat) {
    && x.h.up == [] && x.h.s.state.Open? && x.h.s.remoteSeq == 1 && x.h.c.state.Open? && !x.h.connecting
    && x.h.c.seqNo == number && x.h.c.lastAck == 0 && i <= BURST
    && x.client == Some(Call(bytes, AfterFrames(Writing.Start(number, |bytes|), i, |bytes|)))
  }

  lemma NextFrame(x: Both, number: byte, bytes: seq<byte>, i: nat)
    requires Sending(x, number, bytes, i) && |bytes| == BURST * FRAME_BYTES && i < BURST
    ensures var w, y := Writing.Start(number, |bytes|), Proceed(x, ClientSend);
      && y.client == Some(Call(bytes, AfterFrames(w, i + 1, |bytes|)))
      && y.h == x.h.(up := [Tagged(|x.h.log|, BurstFrame(w, i, bytes))])
  {
    var w := Writing.Start(number, |bytes|);
    assert AtBurstStart(w, |bytes|);
    BurstStartForm(w, |bytes|);
    FrameForm(w, i, |bytes|);
    FrameSent(w, i, bytes);
    AfterFramesStays(w, i, |bytes|);
    assert Tag(|x.h.log|, [BurstFrame(w, i, bytes)]) == [Tagged(|x.h.log|, BurstFrame(w, i, bytes))];
  }

  lemma {:induction false} FramesLost(x: Both, y: Both, n: nat, number: byte, bytes: seq<byte>, i: nat)
    returns (z: Both)
    requires Possible(x, y, n) && Sending(y, number, bytes, 0) && |bytes| == BURST * FRAME_BYTES && i <= BURST
    ensures Possible(x, z, n) && Sending(z, number, bytes, i) && z.h.s.ring == y.h.s.ring
  {
    if i == 0 {
      z := y;
    } else {
      z := FramesLost(x, y, n, number, bytes, i - 1);
      NextFrame(z, number, bytes, i - 1);
      ReachMove(x, z, n, ClientSend);
      z := ReachLostUp(x, Proceed(z, ClientSend), n);
    }
  }

  lemma Begun(x: Both, y: Both, n: nat, number: byte, bytes: seq<byte>) returns (z: Both)
    requires Possible(x, y, n) && y.h.up == [] && y.h.s.state.Open? && y.h.s.remoteSeq == 1 && y.h.c.state.Open?
    requires !y.h.connecting && y.h.c.seqNo == number && y.h.c.lastAck == 0 && !y.ClientBusy()
    requires |bytes| == BURST * FRAME_BYTES
    ensures Possible(x, z, n) && Sending(z, number, bytes, 0) && z.h == y.h
  {
    ReachMove(x, y, n, ClientWrite(bytes));
    z := Proceed(y, ClientWrite(bytes));
    BurstStartForm(Writing.Start(number, |bytes|), |bytes|);
  }

  /** The initial value 0 of last_recved_ack is the number of the fourth frame behind 252. */
  lemma FalseAnswer(x: Both, y: Both, n: nat, bytes: seq<byte>) returns (z: Both)
    requires Possible(x, y, n) && Sending(y, 252, bytes, BURST) && |bytes| == BURST * FRAME_BYTES
    ensures Possible(x, z, n) && z.h == y.h.(c := y.h.c.(seqNo := 255)) && !z.ClientBusy()
    ensures z.client.Some? && z.client.value.bytes == bytes && z.client.value.w.result == Some(|bytes|)
  {
    FourthMatches(bytes);
    ReachMove(x, y, n, ClientEndWait);
    z := Proceed(y, ClientEndWait);
  }

  lemma FourthMatches(bytes: seq<byte>)
    requires |bytes| == BURST * FRAME_BYTES
    ensures var call := Call(bytes, AfterFrames(Writing.Start(252, |bytes|), BURST, |bytes|));
      && CanEnd(Some(call)) && AfterWait(call, 0).w.result == Some(|bytes|) && AfterWait(call, 0).w.seqNo == 255
  {
    var w := Writing.Start(252, |bytes|);
    assert AtBurstStart(w, |bytes|);
    AfterFramesStays(w, BURST, |bytes|);
    assert Ahead(252, 0) == 3;
    ConcludeMatch(w, 0, 0, |bytes|);
  }

  /** Behind 255, the third frame carries the number that the server waits for. */
  lemma ThirdTaken(x: Both, y: Both, n: nat, bytes: seq<byte>) returns (z: Both)
    requires Possible(x, y, n) && Sending(y, 255, bytes, 2) && |bytes| == BURST * FRAME_BYTES
    ensures Possible(x, z, n) && z.h.s.ring == y.h.s.ring + bytes[2 * FRAME_BYTES..3 * FRAME_BYTES]
  {
    NextFrame(y, 255, bytes, 2);
    ThirdFrame(bytes);
    ReachMove(x, y, n, ClientSend);
    z := FrameTaken(x, Proceed(y, ClientSend), n, BurstFrame(Writing.Start(255, |bytes|), 2, bytes));
  }

  lemma ThirdFrame(bytes: seq<byte>)
    requires |bytes| == BURST * FRAME_BYTES
    ensures BurstFrame(Writing.Start(255, |bytes|), 2, bytes) == Data(2, bytes[2 * FRAME_BYTES..3 * FRAME_BYTES])
  {
  }

  lemma FrameTaken(x: Both, y: Both, n: nat, f: Message) returns (z: Both)
    requires Possible(x, y, n) && y.h.s.state.Open? && y.h.s.remoteSeq == 1 && |y.h.up| == 1 && y.h.up[0].msg == f
    requires f.Data? && f.seqNo == 2
    ensures Possible(x, z, n) && z.h.s.ring == y.h.s.ring + f.bytes
  {
    ReachMove(x, y, n, Shake(DeliverUp));
    z := Proceed(y, Shake(DeliverUp));
  }

  /** After 251 calls of connect, of which the server has answered the first, bytes cross out of order: a first
      write returns its length although nothing of it has been delivered, and of a second one the server
      appends the third frame first. */
  lemma OneTooMany(x: Both, lost: seq<byte>, bytes: seq<byte>) returns (y: Both, z: Both)
    requires New(x) && |lost| == |bytes| == BURST * FRAME_BYTES
    ensures Possible(x, y, MANY + 1) && y.h.s.ring == x.h.s.ring
    ensures y.client.Some? && y.client.value.bytes == lost && y.client.value.w.result == Some(|lost|)
    ensures Possible(x, z, MANY + 1) && z.h.s.ring == x.h.s.ring + bytes[2 * FRAME_BYTES..3 * FRAME_BYTES]
  {
    z := ManyLost(x, MANY);
    z := LostSyn(x, z, MANY);
    z := Answer(x, z, MANY + 1);
    z := Confirm(x, z, MANY + 1);
    z := Begun(x, z, MANY + 1, 252, lost);
    z := FramesLost(x, z, MANY + 1, 252, lost, BURST);
    y := FalseAnswer(x, z, MANY + 1, lost);
    z := Begun(x, y, MANY + 1, 255, bytes);
    z := FramesLost(x, z, MANY + 1, 255, bytes, 2);
    z := ThirdTaken(x, z, MANY + 1, bytes);
  }

  /** Exactly how far that goes: nothing crosses in any run with at most `n` calls of connect if and only if
      `n` is at most 250. */
  lemma NothingCrossesExactly(x: Both, n: nat)
    requires New(x)
    ensures (forall ms | ConnectCalls(ms) <= n :: NothingCrossed(x, ProceedAll(x, ms))) <==> n <= MANY
  {
    if n <= MANY {
      forall ms | ConnectCalls(ms) <= n
        ensures NothingCrossed(x, ProceedAll(x, ms))
      {
        NothingEverCrosses(x, ms);
      }
    } else {
      var bytes := seq(BURST * FRAME_BYTES, i => 0);
      var y, z := OneTooMany(x, bytes, bytes);
      var ms :| ProceedAll(x, ms) == z && ConnectCalls(ms) == MANY + 1;
      assert |z.h.s.ring| > |x.h.s.ring|;
      assert ConnectCalls(ms) <= n && !NothingCrossed(x, ProceedAll(x, ms));
    }
  }
}
