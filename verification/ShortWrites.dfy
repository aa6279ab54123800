/** write() as the source has it, for at most two frames: in every run from an aligned start, also after
    answers and after an ACK of 255 has matched unused slots. */
module ShortWrites {
  import opened Bytes
  import opened Endpoints
  import opened Links
  import opened Writing
  import opened Transfer

  /** A receiver that has taken frame `t` accepts `m` only if it is the next frame of this write. */
  predicate OnlyNext(k: Job, s: byte, t: nat, m: Message) {
    m.seqNo == (t + 1) % 256 ==> t < s + Total(k) && m == Chunk(k, s, t + 1)
  }

  predicate Harmless(k: Job, s: byte, m: Message) {
    m.Data? && forall t | s < t <= s + Total(k) :: OnlyNext(k, s, t, m)
  }

  /** The first frame of two has been answered: its number is used again for the second. */
  predicate Repeating(k: Job, x: Net, s: byte) {
    Total(k) == 2 && Plus(s, 1) != 255 && x.w.seqNo == s && x.w.initial == FRAME_BYTES && x.w.toSend == 1
  }

  /** Unused slots have matched: the write starts over behind drifting numbers. */
  predicate Looping(k: Job, x: Net, s: byte) {
    && x.w.initial == 0 && x.w.toSend == Total(k) && Drifting(Total(k), x.w.seqNo)
    && (s == 254 || (s == 253 && x.heard == 255))
  }

  predicate SpentWriter(k: Job, x: Net, s: byte) {
    x.w.result.None? ==>
      MidBurst(x.w, |k.bytes|) && (Repeating(k, x, s) || Looping(k, x, s))
  }

  /** What holds once an answer has been heard: whatever is still sent, the receiver takes nothing but the
      rest of the bytes. */
  predicate Spent(k: Job, x: Net, s: byte, ring: seq<byte>) {
    && 0 < |k.bytes| <= 2 * FRAME_BYTES && k.extra == 0
    && s < x.heard <= x.taken <= s + Total(k) && x.lastAck == x.heard % 256 && BackInv(x)
    && ReceiverInv(k, x, s, ring)
    && (forall p | 0 <= p < |x.fwd| :: Harmless(k, s, x.fwd[p].msg))
    && SpentWriter(k, x, s)
    && (x.w.result == Some(|k.bytes|) ==> Total(k) == 2 && (s == 254 ==> x.taken == s + 2))
  }

  lemma SpentFrame(k: Job, x: Net, s: byte)
    requires 0 < |k.bytes| <= 2 * FRAME_BYTES && SpentWriter(k, x, s) && x.heard <= s + Total(k)
    requires x.w.result.None? && x.w.sent < x.w.toSend
    ensures Harmless(k, s, BurstFrame(x.w, x.w.sent, k.bytes))
  {
    if Looping(k, x, s) {
      LoopingFrame(k, x, s);
    } else {
      assert BurstFrame(x.w, x.w.sent, k.bytes).seqNo == Plus(s, 1);
    }
  }

  lemma LoopingFrame(k: Job, x: Net, s: byte)
    requires 0 < |k.bytes| <= 2 * FRAME_BYTES && Looping(k, x, s) && x.heard <= s + Total(k) && x.w.sent < x.w.toSend
    ensures Harmless(k, s, BurstFrame(x.w, x.w.sent, k.bytes))
  {
    if Total(k) == 1 {
      OddNumbers(x.w.seqNo);
    } else {
      LoopingNumbers(x.w.seqNo, x.w.sent);
      if s == 253 && Plus(x.w.seqNo, 2) == 255 {
        SecondChunk(k, x.w);
      }
    }
  }

  lemma OddNumbers(n: byte)
    requires n % 2 == 0
    ensures Plus(n, 1) % 2 == 1
  {
  }

  lemma SecondChunk(k: Job, w: Writer)
    requires w.initial == 0 && FRAME_BYTES < |k.bytes| <= 2 * FRAME_BYTES && Plus(w.seqNo, 2) == 255
    ensures BurstFrame(w, 1, k.bytes) == Chunk(k, 253, 255)
  {
    EndsGrow(k, 253, 253);
    EndsGrow(k, 253, 254);
  }

  lemma LoopingNumbers(n: byte, sent: nat)
    requires n % 5 == 3 && sent < 2
    ensures var m := Plus(n, sent + 1); m != 0 && m != 1 && (m == 255 ==> sent == 1 && Plus(n, 2) == 255)
  {
  }

  lemma SpentSend(k: Job, x: Net, s: byte, ring: seq<byte>)
    requires Spent(k, x, s, ring)
    ensures Spent(k, Apply(k, x, SendNext), s, ring)
  {
    var y := Apply(k, x, SendNext);
    if y != x {
      MidSends(x.w, k.bytes);
      SpentFrame(k, x, s);
    }
  }

  lemma SpentTakes(k: Job, x: Net, s: byte, ring: seq<byte>)
    requires ReceiverInv(k, x, s, ring) && s < x.taken <= s + Total(k)
    requires x.fwd != [] && Harmless(k, s, x.fwd[0].msg)
    ensures var act := Takes(k.role, x.r, x.fwd[0].msg);
      var now := if act.ep.remoteSeq != x.r.remoteSeq then x.taken + 1 else x.taken;
      && act.ep.state.Open? && act.ep.remoteSeq == now % 256 && act.out == [Ack(now % 256)]
      && now <= s + Total(k) && act.ep.ring == ring + k.bytes[..End(k, s, now)]
  {
    var m := x.fwd[0].msg;
    NumbersMatch(x.taken, x.taken);
    assert OnlyNext(k, s, x.taken, m);
    if Takes(k.role, x.r, m).ep.remoteSeq != x.r.remoteSeq {
      assert m == Chunk(k, s, x.taken + 1);
      ReceiverTakes(k, x, s, ring, Tagged(x.taken + 1, m));
    }
  }

  lemma SpentReceive(k: Job, x: Net, s: byte, ring: seq<byte>)
    requires Spent(k, x, s, ring)
    ensures Spent(k, Apply(k, x, DeliverData), s, ring)
  {
    if x.fwd != [] {
      var y := Received(k, x);
      SpentTakes(k, x, s, ring);
      assert Tag(y.taken, [Ack(y.taken % 256)]) == [Tagged(y.taken, Ack(y.taken % 256))];
      BackAfter(x, y.taken);
      assert BackInv(y);
    }
  }

  /** The number heard does not go back, so 255 is heard for ever if it is the last. */
  lemma SpentHear(k: Job, x: Net, s: byte, ring: seq<byte>)
    requires Spent(k, x, s, ring)
    ensures Spent(k, Apply(k, x, DeliverAck), s, ring)
  {
    assert BackInv(Apply(k, x, DeliverAck));
  }

  /** The end of a wait for a sender that has got an answer before. */
  predicate WaitOver(k: Job, x: Net, s: byte) {
    && 0 < |k.bytes| <= 2 * FRAME_BYTES && k.extra == 0 && SpentWriter(k, x, s)
    && s < x.heard <= s + Total(k) && x.lastAck == x.heard % 256
    && x.w.result.None? && x.w.sent == x.w.toSend && Sane(x.w, |k.bytes|)
  }

  lemma RepeatingWait(k: Job, x: Net, s: byte)
    requires WaitOver(k, x, s) && Repeating(k, x, s)
    ensures var y := Concluded(k, x); SpentWriter(k, y, s) && (y.w.result == Some(|k.bytes|) ==> s != 254)
  {
    var len := |k.bytes|;
    var w := AtStart(x.w, len);
    MidEnds(x.w, len);
    if x.lastAck == 255 {
      SentinelRestarts(w, len);
      DriftForm(1, Ahead(253, 255));
      MidStarts(Concluded(k, x).w, len);
    } else {
      ConcludeMatch(w, x.lastAck, 0, len);
    }
  }

  lemma LoopingWait(k: Job, x: Net, s: byte)
    requires WaitOver(k, x, s) && Looping(k, x, s)
    ensures var y := Concluded(k, x); SpentWriter(k, y, s) && y.w.result != Some(|k.bytes|)
  {
    LoopingHears(k, x, s);
    if x.lastAck == 255 {
      LoopingHit(k, x, s);
    } else {
      LoopingMiss(k, x, s);
    }
  }

  lemma LoopingHears(k: Job, x: Net, s: byte)
    requires WaitOver(k, x, s) && Looping(k, x, s)
    ensures x.lastAck == 255 || (x.lastAck == 0 && Total(k) == 2)
  {
  }

  lemma LoopingMiss(k: Job, x: Net, s: byte)
    requires WaitOver(k, x, s) && Looping(k, x, s) && x.lastAck == 0 && Total(k) == 2
    ensures Concluded(k, x).w.result == Some(ACK_OUT_OF_SEQUENCE)
  {
    LoopingFails(x.w.seqNo);
    MidEnds(x.w, |k.bytes|);
    ConcludeMatch(AtStart(x.w, |k.bytes|), 0, 0, |k.bytes|);
  }

  lemma LoopingHit(k: Job, x: Net, s: byte)
    requires WaitOver(k, x, s) && Looping(k, x, s) && x.lastAck == 255
    ensures var y := Concluded(k, x); SpentWriter(k, y, s) && y.w.result != Some(|k.bytes|)
  {
    DriftStays(Total(k), x.w.seqNo);
    MidEnds(x.w, |k.bytes|);
    SentinelRestarts(AtStart(x.w, |k.bytes|), |k.bytes|);
    MidStarts(Concluded(k, x).w, |k.bytes|);
  }

  lemma LoopingFails(n: byte)
    ensures n % 5 == 3 ==> n != 0 && Ahead(n, 0) >= 2
  {
  }

  lemma SpentWait(k: Job, x: Net, s: byte, ring: seq<byte>)
    requires Spent(k, x, s, ring) && x.w.result.None? && x.w.sent == x.w.toSend && Sane(x.w, |k.bytes|)
    ensures Spent(k, Concluded(k, x), s, ring)
  {
    if Looping(k, x, s) {
      LoopingWait(k, x, s);
    } else {
      RepeatingWait(k, x, s);
    }
  }

  lemma SpentStep(k: Job, x: Net, s: byte, ring: seq<byte>, step: Step)
    requires Spent(k, x, s, ring)
    ensures Spent(k, Apply(k, x, step), s, ring)
  {
    match step
    case SendNext => SpentSend(k, x, s, ring);
    case DeliverData => SpentReceive(k, x, s, ring);
    case DeliverAck => SpentHear(k, x, s, ring);
    case LoseData(i) => SpentLosesData(k, x, s, ring, i);
    case LoseAck(i) => SpentLosesAck(k, x, s, ring, i);
    case EndWait =>
      if x.w.result.None? && x.w.sent == x.w.toSend && Sane(x.w, |k.bytes|) {
        SpentWait(k, x, s, ring);
      }
  }

  lemma SpentLosesData(k: Job, x: Net, s: byte, ring: seq<byte>, i: nat)
    requires Spent(k, x, s, ring)
    ensures Spent(k, Apply(k, x, LoseData(i)), s, ring)
  {
  }

  lemma SpentLosesAck(k: Job, x: Net, s: byte, ring: seq<byte>, i: nat)
    requires Spent(k, x, s, ring)
    ensures Spent(k, Apply(k, x, LoseAck(i)), s, ring)
  {
    assert BackInv(Apply(k, x, LoseAck(i)));
  }

  lemma FramesAreHarmless(k: Job, x: Net, s: byte)
    requires ForwardInv(k, x, s) && s <= x.taken && 0 < |k.bytes| <= 2 * FRAME_BYTES
    ensures forall p | 0 <= p < |x.fwd| :: Harmless(k, s, x.fwd[p].msg)
  {
    forall p | 0 <= p < |x.fwd|
      ensures Harmless(k, s, x.fwd[p].msg)
    {
      var f := x.fwd[p];
      assert OnLink(k, s, f);
      forall t | s < t <= s + Total(k)
        ensures OnlyNext(k, s, t, f.msg)
      {
        assert (t + 1) % 256 == f.index % 256 ==> t + 1 == f.index;
      }
    }
  }

  /** The end of a wait for which the invariant of Transfer holds. */
  lemma ShortWait(k: Job, x: Net, s: byte, a: byte, ring: seq<byte>)
    requires Inv(k, x, s, a, ring) && x.base == s && 0 < |k.bytes| <= 2 * FRAME_BYTES && k.extra == 0
    requires (a == s || a != 255)
    requires x.w.result.None? && x.w.sent == x.w.toSend && Sane(x.w, |k.bytes|)
    requires !Exempt(k, x) && Exempt(k, Concluded(k, x))
    ensures Spent(k, Concluded(k, x), s, ring)
  {
    var y, len := Concluded(k, x), |k.bytes|;
    FramesAreHarmless(k, x, s);
    EndIsTotal(k, s, x.base);
    if SentinelHit(x.w, x.lastAck) {
      ShortHit(k, x, s, a, ring);
    } else {
      AnswerOfTwo(k, x, s, a, ring);
      ShortAnswer(k, x, s, Concluded(k, x));
    }
  }

  /** A write of two frames has got its first answer. */
  predicate AnsweredTwo(k: Job, x: Net, s: byte, y: Net) {
    && Total(k) == 2 && s < x.heard <= x.taken <= s + 2 && x.lastAck == x.heard % 256
    && y.w.seqNo == (x.heard - 1) % 256 && y.w.pos == End(k, s, x.heard) <= |k.bytes|
    && (if y.w.pos == |k.bytes| then y.w.result == Some(|k.bytes|) && x.heard == s + 2
        else y.w.result.None? && y.w == Begin(y.w, |k.bytes|) && y.w.initial == y.w.pos)
  }

  lemma AnswerOfTwo(k: Job, x: Net, s: byte, a: byte, ring: seq<byte>)
    requires Inv(k, x, s, a, ring) && x.base == s && k.extra == 0 && Total(k) == 2
    requires x.w.result.None? && x.w.sent == x.w.toSend && Sane(x.w, |k.bytes|) && !SentinelHit(x.w, x.lastAck)
    requires !x.answered && Concluded(k, x).answered
    ensures AnsweredTwo(k, x, s, Concluded(k, x))
  {
    AnswerMeans(k, x, s, a, ring);
  }

  lemma ShortAnswer(k: Job, x: Net, s: byte, y: Net)
    requires AnsweredTwo(k, x, s, y) && WriterInv(k, x, s) && x.base == s && x.w.result.None?
    requires !SentinelHit(x.w, x.lastAck)
    ensures SpentWriter(k, y, s) && (y.w.result == Some(|k.bytes|) ==> x.taken == s + 2)
  {
    if y.w.result.None? {
      FirstOfTwo(k, x, s);
      RepeatsFirst(k, y, s);
    }
  }

  lemma FirstOfTwo(k: Job, x: Net, s: byte)
    requires WriterInv(k, x, s) && x.w.result.None? && x.base == s && Total(k) == 2
    requires s < x.heard <= s + 2 && x.lastAck == x.heard % 256 && !SentinelHit(x.w, x.lastAck)
    requires End(k, s, x.heard) != |k.bytes|
    ensures x.heard == s + 1 && Plus(s, 1) != 255
  {
    EndIsTotal(k, s, x.heard);
  }

  lemma RepeatsFirst(k: Job, y: Net, s: byte)
    requires Total(k) == 2 && y.w.result.None? && y.w.pos == End(k, s, s + 1) && y.w.initial == y.w.pos
    requires y.w == Begin(y.w, |k.bytes|) && y.w.seqNo == s && Plus(s, 1) != 255
    ensures SpentWriter(k, y, s)
  {
    MidStarts(y.w, |k.bytes|);
  }

  lemma ShortHit(k: Job, x: Net, s: byte, a: byte, ring: seq<byte>)
    requires Inv(k, x, s, a, ring) && x.base == s && 0 < |k.bytes| <= 2 * FRAME_BYTES && k.extra == 0
    requires (a == s || a != 255)
    requires x.w.result.None? && x.w.sent == x.w.toSend && Sane(x.w, |k.bytes|) && SentinelHit(x.w, x.lastAck)
    ensures var y := Concluded(k, x);
      y.w.result.None? && SpentWriter(k, y, s) && s < x.heard && x.lastAck == x.heard % 256
  {
    var y, len := Concluded(k, x), |k.bytes|;
    var w := Begin(x.w.(pos := x.w.initial), len);
    BurstBehind(k, x, s);
    SentinelRestarts(w, len);
    assert w.toSend == Total(k) && s < x.heard <= s + Total(k) && x.heard % 256 == 255;
    FirstDrift(Total(k), s, x.heard);
    BurstStartForm(y.w, len);
  }

  lemma FirstDrift(frames: nat, s: byte, heard: nat)
    requires 1 <= frames <= 2 && s < heard <= s + frames && heard % 256 == 255
    ensures heard == 255 && Drifting(frames, Plus(s, Drift(frames, Ahead(s, 255), BURST))) && (s == 254 || s == 253)
  {
    DriftForm(frames, Ahead(s, 255));
    if s == 254 {
      assert Ahead(254, 255) == 0;
    } else {
      assert s == 253 && Ahead(253, 255) == 1;
    }
  }

  /** The only frame of the write is numbered 255. */
  predicate OneBehind254(k: Job, s: byte) {
    Total(k) == 1 && s == 254
  }

  ghost predicate ShortInv(k: Job, x: Net, s: byte, a: byte, ring: seq<byte>) {
    || (Inv(k, x, s, a, ring) && !Exempt(k, x) && (x.answered || x.base == s)
        && (x.w.result == Some(|k.bytes|) ==> !OneBehind254(k, s)))
    || Spent(k, x, s, ring)
  }

  /** The ACK of 255 would match unused slots. */
  lemma HitOfOne(k: Job, x: Net, s: byte)
    requires WriterInv(k, x, s) && x.w.result.None? && x.base == s && OneBehind254(k, s) && x.lastAck == 255
    ensures SentinelHit(x.w, x.lastAck)
  {
  }

  lemma HeardOfOne(k: Job, x: Net, s: byte)
    requires OrderInv(k, x, s) && OneBehind254(k, s) && x.base == s && x.base < x.heard && x.lastAck == x.heard % 256
    ensures x.lastAck == 255
  {
  }

  lemma OneNeverAnswered(k: Job, x: Net, s: byte, a: byte, ring: seq<byte>)
    requires Inv(k, x, s, a, ring) && x.base == s && OneBehind254(k, s) && k.extra == 0 && (a == s || a != 255)
    requires x.w.result.None? && x.w.sent == x.w.toSend && Sane(x.w, |k.bytes|) && !SentinelHit(x.w, x.lastAck)
    ensures Concluded(k, x).w.result != Some(|k.bytes|)
  {
    if x.lastAck != x.w.seqNo {
      AnswerMeans(k, x, s, a, ring);
      if x.lastAck == x.heard % 256 {
        HeardOfOne(k, x, s);
        HitOfOne(k, x, s);
      }
    }
  }

  lemma ShortStep(k: Job, x: Net, s: byte, a: byte, ring: seq<byte>, step: Step)
    requires ShortInv(k, x, s, a, ring) && 0 < |k.bytes| <= 2 * FRAME_BYTES && k.extra == 0 && (a == s || a != 255)
    ensures ShortInv(k, Apply(k, x, step), s, a, ring)
  {
    if Spent(k, x, s, ring) {
      SpentStep(k, x, s, ring, step);
    } else {
      InvStep(k, x, s, a, ring, step);
      if Exempt(k, Apply(k, x, step)) {
        ShortWait(k, x, s, a, ring);
      } else if step.EndWait? && Apply(k, x, step) != x && OneBehind254(k, s) {
        OneNeverAnswered(k, x, s, a, ring);
      }
    }
  }

  lemma {:induction false} ShortRun(k: Job, s: byte, a: byte, r: Endpoint, steps: seq<Step>)
    requires 0 < |k.bytes| <= 2 * FRAME_BYTES && k.extra == 0 && Aligned(s, a, r)
    ensures ShortInv(k, Run(k, Entered(k, s, a, r), steps), s, a, r.ring)
  {
    if steps == [] {
      InvStart(k, s, a, r);
    } else {
      ShortRun(k, s, a, r, steps[..|steps| - 1]);
      ShortStep(k, Run(k, Entered(k, s, a, r), steps[..|steps| - 1]), s, a, r.ring, steps[|steps| - 1]);
    }
  }

  /** In every run of a write of at most two frames from an aligned start the receiver has appended a
      prefix of the bytes. */
  lemma ShortWritesInOrder(k: Job, s: byte, a: byte, r: Endpoint, steps: seq<Step>)
    requires 0 < |k.bytes| <= 2 * FRAME_BYTES && k.extra == 0 && Aligned(s, a, r)
    ensures var x := Run(k, Entered(k, s, a, r), steps);
      s <= x.taken && x.r.ring == r.ring + k.bytes[..End(k, s, x.taken)]
  {
    ShortRun(k, s, a, r, steps);
  }

  /** The write is of one frame; or of two, but behind 254, where an ACK of the first frame matches unused
      slots and makes the write start over for ever. */
  predicate Trustworthy(len: nat, s: byte) {
    len <= FRAME_BYTES || (s == 254 && len <= 2 * FRAME_BYTES)
  }

  /** A write of one frame, or of two behind 254, has delivered all bytes when it returns their number. */
  lemma TrustworthyIsSafe(k: Job, s: byte, a: byte, r: Endpoint, steps: seq<Step>)
    requires 0 < |k.bytes| && Trustworthy(|k.bytes|, s) && k.extra == 0 && Aligned(s, a, r)
    ensures var x := Run(k, Entered(k, s, a, r), steps);
      x.w.result == Some(|k.bytes|) ==> x.r.ring == r.ring + k.bytes
  {
    ShortRun(k, s, a, r, steps);
    var x := Run(k, Entered(k, s, a, r), steps);
    EndIsTotal(k, s, x.taken);
    assert k.bytes[..|k.bytes|] == k.bytes;
  }

  lemma SuccessOfOne(k: Job, x: Net, s: byte, a: byte, ring: seq<byte>)
    requires ShortInv(k, x, s, a, ring) && Total(k) == 1 && k.extra == 0 && x.w.result == Some(|k.bytes|)
    ensures x.lastAck == Plus(x.w.seqNo, 1) != 255
  {
    assert x.w.seqNo == s && x.lastAck == (s + 1) % 256;
  }

  /** Once a write of one frame has returned, the ACK heard last is the one behind the sender's number. */
  lemma StaleBehindSuccess(k: Job, s: byte, a: byte, r: Endpoint, steps: seq<Step>)
    requires 0 < |k.bytes| <= FRAME_BYTES && k.extra == 0 && Aligned(s, a, r)
    requires Run(k, Entered(k, s, a, r), steps).w.result == Some(|k.bytes|)
    ensures var x := Run(k, Entered(k, s, a, r), steps); x.lastAck == Plus(x.w.seqNo, 1) != 255
  {
    ShortRun(k, s, a, r, steps);
    SuccessOfOne(k, Run(k, Entered(k, s, a, r), steps), s, a, r.ring);
  }
}
