/** Building blocks for runs of module Transfer that show what can happen. */
module Runs {
  import opened Bytes
  import opened Endpoints
  import opened Links
  import opened Writing
  import opened Transfer
  import opened Flows

  ghost predicate Reaches(k: Job, x: Net, y: Net) {
    exists steps :: Run(k, x, steps) == y
  }

  lemma ReachStart(k: Job, x: Net)
    ensures Reaches(k, x, x)
  {
    assert Run(k, x, []) == x;
  }

  lemma ReachStep(k: Job, x: Net, y: Net, step: Step)
    requires Reaches(k, x, y)
    ensures Reaches(k, x, Apply(k, y, step))
  {
    var steps :| Run(k, x, steps) == y;
    assert (steps + [step])[..|steps|] == steps;
    assert Run(k, x, steps + [step]) == Apply(k, y, step);
  }

  lemma SentStep(k: Job, b: Writer, n: nat, y: Net)
    requires AtBurstStart(b, |k.bytes|) && b.result.None? && n < b.toSend <= BURST
    requires y.w == AfterFrames(b, n, |k.bytes|)
    ensures Apply(k, y, SendNext) ==
      y.(w := AfterFrames(b, n + 1, |k.bytes|), fwd := y.fwd + [Tagged(y.base + n + 1, BurstFrame(b, n, k.bytes))])
  {
    BurstStartForm(b, |k.bytes|);
    FrameForm(b, n, |k.bytes|);
    FrameSent(b, n, k.bytes);
    AfterFramesStays(b, n, |k.bytes|);
  }

  /** The first `n` frames of the burst that begins in `x` are sent. */
  lemma {:induction false} ReachSent(k: Job, x0: Net, x: Net, n: nat) returns (y: Net)
    requires Reaches(k, x0, x) && AtBurstStart(x.w, |k.bytes|) && x.w.result.None? && n <= x.w.toSend
    ensures n <= x.w.toSend <= BURST && Reaches(k, x0, y) && y == x.(w := AfterFrames(x.w, n, |k.bytes|), fwd := y.fwd)
  {
    BurstStartForm(x.w, |k.bytes|);
    if n == 0 {
      y := x;
    } else {
      var u := ReachSent(k, x0, x, n - 1);
      y := ReachOneSent(k, x0, x.w, n - 1, u);
    }
  }

  lemma ReachOneSent(k: Job, x0: Net, b: Writer, n: nat, x: Net) returns (y: Net)
    requires Reaches(k, x0, x) && AtBurstStart(b, |k.bytes|) && b.result.None? && n < b.toSend <= BURST
    requires x.w == AfterFrames(b, n, |k.bytes|)
    ensures Reaches(k, x0, y) && y == x.(w := AfterFrames(b, n + 1, |k.bytes|), fwd := y.fwd)
    ensures |y.fwd| == |x.fwd| + 1 && y.fwd[..|x.fwd|] == x.fwd && y.fwd[|x.fwd|].msg == BurstFrame(b, n, k.bytes)
  {
    SentStep(k, b, n, x);
    ReachStep(k, x0, x, SendNext);
    y := Apply(k, x, SendNext);
  }

  /** The frames `ms` are alone on the link. */
  predicate Carries(fwd: seq<Tagged>, ms: seq<Message>) {
    |fwd| == |ms| && forall i | 0 <= i < |fwd| :: fwd[i].msg == ms[i]
  }

  /** The messages of the burst `b`. */
  function Messages(k: Job, b: Writer): (ms: seq<Message>)
    requires b.initial <= |k.bytes|
    ensures |ms| == b.toSend
  {
    seq(b.toSend, i requires 0 <= i < b.toSend => BurstFrame(b, i, k.bytes))
  }

  lemma {:induction false} ReachFrames(k: Job, x0: Net, x: Net, n: nat) returns (y: Net)
    requires Reaches(k, x0, x) && AtBurstStart(x.w, |k.bytes|) && x.w.result.None? && n <= x.w.toSend && x.fwd == []
    ensures n <= x.w.toSend <= BURST && Reaches(k, x0, y) && y == x.(w := AfterFrames(x.w, n, |k.bytes|), fwd := y.fwd)
    ensures Carries(y.fwd, Messages(k, x.w)[..n])
  {
    BurstStartForm(x.w, |k.bytes|);
    if n == 0 {
      y := x;
    } else {
      var u := ReachFrames(k, x0, x, n - 1);
      y := ReachOneSent(k, x0, x.w, n - 1, u);
      CarriesMore(u.fwd, y.fwd, Messages(k, x.w), n);
    }
  }

  lemma CarriesMore(fwd: seq<Tagged>, more: seq<Tagged>, ms: seq<Message>, n: nat)
    requires 0 < n <= |ms| && Carries(fwd, ms[..n - 1]) && |more| == |fwd| + 1 && more[..|fwd|] == fwd
    requires more[|fwd|].msg == ms[n - 1]
    ensures Carries(more, ms[..n])
  {
    forall i | 0 <= i < |more|
      ensures more[i].msg == ms[i]
    {
      if i < |fwd| {
        assert more[i] == fwd[i] && fwd[i].msg == ms[..n - 1][i];
      }
    }
  }

  /** All frames on the way are lost. */
  lemma {:induction false} ReachEmpty(k: Job, x0: Net, x: Net) returns (y: Net)
    requires Reaches(k, x0, x)
    ensures Reaches(k, x0, y) && y == x.(fwd := [], rough := y.rough)
    decreases |x.fwd|
  {
    if x.fwd == [] {
      y := x;
    } else {
      ReachStep(k, x0, x, LoseData(0));
      y := ReachEmpty(k, x0, Apply(k, x, LoseData(0)));
    }
  }

  lemma ReachAccepted(k: Job, x0: Net, x: Net) returns (y: Net)
    requires Reaches(k, x0, x) && x.fwd != [] && x.r.state.Open? && x.fwd[0].msg.Data?
    requires x.fwd[0].msg.seqNo == Next(x.r.remoteSeq) && (k.role.AsServer? || x.r.remoteSeq < 255)
    ensures Reaches(k, x0, y) && y.w == x.w && y.fwd == x.fwd[1..] && y.lastAck == x.lastAck
    ensures y.r == x.r.(remoteSeq := Next(x.r.remoteSeq), ring := x.r.ring + x.fwd[0].msg.bytes)
  {
    DeliverOne(k, x, Next(x.r.remoteSeq), x.r.ring + x.fwd[0].msg.bytes);
    ReachStep(k, x0, x, DeliverData);
    y := Apply(k, x, DeliverData);
  }

  lemma ReachRejected(k: Job, x0: Net, x: Net) returns (y: Net)
    requires Reaches(k, x0, x) && x.fwd != [] && x.r.state.Open? && x.fwd[0].msg.Data?
    requires x.fwd[0].msg.seqNo != Next(x.r.remoteSeq)
    ensures Reaches(k, x0, y) && y.w == x.w && y.fwd == x.fwd[1..] && y.r == x.r && y.lastAck == x.lastAck
    ensures |y.back| == |x.back| + 1 && y.back[|x.back|].msg == Ack(x.r.remoteSeq)
  {
    DeliverOne(k, x, x.r.remoteSeq, x.r.ring);
    ReachStep(k, x0, x, DeliverData);
    y := Apply(k, x, DeliverData);
  }

  /** At the start of a burst with nothing on the links, the receiver is `lag` numbers ahead of the sender. */
  predicate Waiting(k: Job, x: Net, lag: nat) {
    && AtBurstStart(x.w, |k.bytes|) && x.w.result.None? && x.fwd == [] && x.back == []
    && lag <= 1 && x.r.state.Open? && x.r.remoteSeq == Plus(x.w.seqNo, lag)
  }

  /** What happens to the burst that begins in `x`. */
  function ScriptFrom(k: Job, x: Net, lag: nat): Script
    requires Waiting(k, x, lag)
  {
    ScriptOf(k.bytes, x.w, lag, x.r.ring)
  }

  lemma ReachAllSent(k: Job, x0: Net, x: Net, lag: nat) returns (y: Net)
    requires Reaches(k, x0, x) && Waiting(k, x, lag)
    ensures Reaches(k, x0, y) && x.w.toSend <= BURST
    ensures y == x.(w := AfterFrames(x.w, x.w.toSend, |k.bytes|), fwd := y.fwd)
    ensures Flowing(ScriptFrom(k, x, lag), x.lastAck, 0, 0, x.w.toSend, y)
  {
    y := ReachFrames(k, x0, x, x.w.toSend);
    assert Messages(k, x.w)[..x.w.toSend] == Messages(k, x.w);
    FlowBegins(k, x, lag, y);
  }

  lemma FlowBegins(k: Job, x: Net, lag: nat, y: Net)
    requires Waiting(k, x, lag) && y == x.(w := y.w, fwd := y.fwd) && Carries(y.fwd, Messages(k, x.w))
    ensures Flowing(ScriptFrom(k, x, lag), x.lastAck, 0, 0, x.w.toSend, y)
  {
    assert x.r.ring + Taken(k.bytes, x.w, lag, 0) == x.r.ring;
  }

  /** Of `j` frames sent `i` are delivered. */
  lemma {:induction false} ReachDelivered(k: Job, x0: Net, sc: Script, a: byte, i: nat, j: nat, x: Net) returns (y: Net)
    requires Reaches(k, x0, x) && Flowing(sc, a, 0, 0, j, x) && i <= j && sc.Followed(k.role, i)
    ensures Reaches(k, x0, y) && Flowing(sc, a, 0, i, j, y) && y.w == x.w && y.rough == x.rough
    ensures y.r == x.r.(remoteSeq := y.r.remoteSeq, ring := y.r.ring)
  {
    if i == 0 {
      y := x;
    } else {
      var u := ReachDelivered(k, x0, sc, a, i - 1, j, x);
      FlowDelivers(k, sc, a, 0, i - 1, j, u);
      ReachStep(k, x0, u, DeliverData);
      y := Apply(k, u, DeliverData);
    }
  }

  /** Their ACKs are heard. */
  lemma {:induction false} ReachAllHeard(k: Job, x0: Net, sc: Script, a: byte, h: nat, i: nat, j: nat, x: Net)
    returns (y: Net)
    requires Reaches(k, x0, x) && Flowing(sc, a, h, i, j, x)
    ensures Reaches(k, x0, y) && Flowing(sc, a, i, i, j, y) && y.w == x.w && y.rough == x.rough && y.r == x.r
    decreases i - h
  {
    if h == i {
      y := x;
    } else {
      FlowHears(k, sc, a, h, i, j, x);
      ReachStep(k, x0, x, DeliverAck);
      y := ReachAllHeard(k, x0, sc, a, h + 1, i, j, Apply(k, x, DeliverAck));
    }
  }

  /** All ACKs but the last are lost. */
  lemma {:induction false} ReachLastAck(k: Job, x0: Net, x: Net) returns (y: Net)
    requires Reaches(k, x0, x) && x.back != []
    ensures Reaches(k, x0, y) && y == x.(back := [x.back[|x.back| - 1]], rough := y.rough)
    decreases |x.back|
  {
    if |x.back| == 1 {
      y := x;
    } else {
      ReachStep(k, x0, x, LoseAck(0));
      FirstAckLost(k, x);
      y := ReachLastAck(k, x0, x.(back := x.back[1..], rough := true));
    }
  }

  lemma FirstAckLost(k: Job, x: Net)
    requires x.back != []
    ensures Apply(k, x, LoseAck(0)) == x.(back := x.back[1..], rough := true)
  {
    assert Drop(x.back, 0) == x.back[1..];
  }

  lemma ReachAck(k: Job, x0: Net, x: Net) returns (y: Net)
    requires Reaches(k, x0, x) && |x.back| == 1 && x.back[0].msg.Ack?
    ensures Reaches(k, x0, y) && y.w == x.w && y.r == x.r && y.fwd == x.fwd && y.back == []
    ensures y.lastAck == x.back[0].msg.seqNo
  {
    ReachStep(k, x0, x, DeliverAck);
    y := Apply(k, x, DeliverAck);
  }

  /** The ACKs on the way are those of frames up to `i`. */
  lemma FlowEnds(sc: Script, a: byte, i: nat, j: nat, x: Net)
    requires Flowing(sc, a, 0, i, j, x) && i > 0
    ensures x.back != [] && x.back[|x.back| - 1].msg == Ack(sc.numbers[i])
  {
  }

  lemma ScriptAt(k: Job, x: Net, m: nat)
    requires Waiting(k, x, 0) && x.w.initial == 0 && m <= x.w.toSend && FRAME_BYTES * m <= |k.bytes|
    ensures var sc := ScriptFrom(k, x, 0);
      && sc.numbers[m] == Plus(x.w.seqNo, m) && sc.rings[m] == x.r.ring + k.bytes[..FRAME_BYTES * m]
      && sc.frames == Messages(k, x.w)
  {
    assert Taken(k.bytes, x.w, 0, m) == k.bytes[..FRAME_BYTES * m];
  }

  /** The first `m` frames of the write are taken, and the ACK of the last of them alone is heard. */
  lemma ReachHeard(k: Job, x: Net, m: nat) returns (y: Net)
    requires Waiting(k, x, 0) && x.w.initial == 0 && 0 < m <= x.w.toSend && FRAME_BYTES * m <= |k.bytes|
    requires k.role.AsServer? || x.w.seqNo + m <= 255
    ensures x.w.toSend <= BURST && Reaches(k, x, y) && y.w == AfterFrames(x.w, x.w.toSend, |k.bytes|)
    ensures Carries(y.fwd, Messages(k, x.w)[m..])
    ensures y.r == x.r.(remoteSeq := Plus(x.w.seqNo, m), ring := x.r.ring + k.bytes[..FRAME_BYTES * m])
    ensures y.back == [] && y.lastAck == Plus(x.w.seqNo, m)
  {
    ReachStart(k, x);
    var sc := ScriptFrom(k, x, 0);
    y := ReachAllSent(k, x, x, 0);
    ScriptIsFollowed(k.role, k.bytes, x.w, 0, x.r.ring, m);
    y := ReachDelivered(k, x, sc, x.lastAck, m, x.w.toSend, y);
    FlowEnds(sc, x.lastAck, m, x.w.toSend, y);
    ScriptAt(k, x, m);
    y := ReachLastAck(k, x, y);
    y := ReachAck(k, x, y);
  }

  /** The wait behind the burst `b` ends in `y`: the ACK of the `m`-th frame is the last one heard. */
  predicate AnsweredAt(k: Job, b: Writer, m: nat, y: Net) {
    && AtBurstStart(b, |k.bytes|) && b.result.None? && 0 < m <= b.toSend <= BURST
    && (Plus(b.seqNo, m) != 255 || b.toSend == BURST)
    && y.w == AfterFrames(b, b.toSend, |k.bytes|) && y.lastAck == Plus(b.seqNo, m)
  }

  lemma EndOfWait(k: Job, b: Writer, m: nat, y: Net)
    requires AnsweredAt(k, b, m, y)
    ensures var z, pos := Apply(k, y, EndWait), PosAfter(b.initial, m, |k.bytes|);
      && z.r == y.r && z.fwd == y.fwd && z.back == y.back && z.lastAck == y.lastAck
      && (m == b.toSend ==> z.rough == y.rough)
      && z.w.seqNo == Plus(b.seqNo, m - 1 + k.extra) && pos > b.initial
      && (if pos == |k.bytes| then z.w.result == Some(|k.bytes|)
          else z.w.result.None? && AtBurstStart(z.w, |k.bytes|) && z.w.initial == pos)
  {
    AnswerAt(b, |k.bytes|, m, k.extra);
  }

  lemma ReachAnswered(k: Job, x0: Net, b: Writer, m: nat, y: Net) returns (z: Net)
    requires Reaches(k, x0, y) && AnsweredAt(k, b, m, y) && PosAfter(b.initial, m, |k.bytes|) < |k.bytes|
    ensures Reaches(k, x0, z) && z.r == y.r && z.fwd == y.fwd && z.back == y.back && z.lastAck == y.lastAck
    ensures m == b.toSend ==> z.rough == y.rough
    ensures z.w.result.None? && AtBurstStart(z.w, |k.bytes|) && z.w.initial == PosAfter(b.initial, m, |k.bytes|)
    ensures z.w.seqNo == Plus(b.seqNo, m - 1 + k.extra)
  {
    EndOfWait(k, b, m, y);
    ReachStep(k, x0, y, EndWait);
    z := Apply(k, y, EndWait);
  }

  lemma ReachEnd(k: Job, x0: Net, b: Writer, m: nat, y: Net) returns (z: Net)
    requires Reaches(k, x0, y) && AnsweredAt(k, b, m, y) && PosAfter(b.initial, m, |k.bytes|) == |k.bytes|
    ensures Reaches(k, x0, z) && z.w.result == Some(|k.bytes|) && z.r == y.r
    ensures m == b.toSend ==> z.rough == y.rough
  {
    EndOfWait(k, b, m, y);
    ReachStep(k, x0, y, EndWait);
    z := Apply(k, y, EndWait);
  }

  /** The same when 255 is the last number heard and there are unused slots. */
  predicate HitAt(k: Job, b: Writer, y: Net) {
    && k.extra == 0 && AtBurstStart(b, |k.bytes|) && b.result.None? && b.toSend < BURST && b.seqNo != 255
    && y.w == AfterFrames(b, b.toSend, |k.bytes|) && y.lastAck == 255
  }

  lemma EndByHit(k: Job, b: Writer, y: Net)
    requires HitAt(k, b, y)
    ensures var z := Apply(k, y, EndWait);
      && z.r == y.r && z.fwd == y.fwd && z.back == y.back && z.lastAck == y.lastAck
      && z.w.result.None? && AtBurstStart(z.w, |k.bytes|) && z.w.initial == 0
      && z.w.seqNo == Plus(b.seqNo, Drift(b.toSend, Ahead(b.seqNo, 255), BURST))
  {
    AfterFramesStays(b, b.toSend, |k.bytes|);
    SentinelRestarts(b, |k.bytes|);
  }

  lemma ReachHit(k: Job, x0: Net, b: Writer, y: Net) returns (z: Net)
    requires Reaches(k, x0, y) && HitAt(k, b, y)
    ensures Reaches(k, x0, z) && z.r == y.r && z.fwd == y.fwd && z.lastAck == y.lastAck
    ensures z.w.result.None? && AtBurstStart(z.w, |k.bytes|) && z.w.initial == 0
    ensures z.w.seqNo == Plus(b.seqNo, Drift(b.toSend, Ahead(b.seqNo, 255), BURST))
  {
    EndByHit(k, b, y);
    ReachStep(k, x0, y, EndWait);
    z := Apply(k, y, EndWait);
  }
}
