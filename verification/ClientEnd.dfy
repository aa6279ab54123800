/** write() as the source has it to a client that has recorded 254 or 255, behind which a client takes at most
    one frame more. */
module ClientEnd {
  import opened Bytes
  import opened Endpoints
  import opened Writing
  import opened Transfer

  /** The sender as long as 255 is all that it hears: behind 254 it goes on frame by frame until fewer than
      four are left and unused slots match; then it starts over, and fails or drifts for ever. */
  predicate Parked(w: Writer, len: nat) {
    && MidBurst(w, len) && (w.initial > 0 ==> Frames(len) >= BURST)
    && (w.seqNo == 254 ||
        (w.initial == 0 && if Frames(len) < BURST then Drifting(Frames(len), w.seqNo) else w.seqNo in {1, 3, 4}))
  }

  lemma ParkedWait(w: Writer, len: nat)
    requires Parked(w, len) && w.result.None? && w.sent == w.toSend
    requires forall i | 0 <= i < BURST :: w.slots[i].pos <= len
    ensures var v := Conclude(w, 255, 0, len); v.result != Some(len) && (v.result.None? ==> Parked(v, len))
  {
    var b := AtStart(w, len);
    MidEnds(w, len);
    if w.toSend < BURST {
      ParkedDrift(w, len);
      SentinelRestarts(b, len);
      StartsParked(Conclude(w, 255, 0, len), len);
    } else if w.seqNo == 254 {
      AnswerAt(b, len, 1, 0);
      StartsParked(Conclude(w, 255, 0, len), len);
    } else {
      ConcludeMatch(b, 255, 0, len);
    }
  }

  lemma StartsParked(v: Writer, len: nat)
    requires v.result.None? && AtBurstStart(v, len) && (v.initial > 0 ==> Frames(len) >= BURST)
    requires v.seqNo == 254 ||
      (v.initial == 0 && if Frames(len) < BURST then Drifting(Frames(len), v.seqNo) else v.seqNo in {1, 3, 4})
    ensures Parked(v, len)
  {
    MidStarts(v, len);
  }

  lemma ParkedDrift(w: Writer, len: nat)
    requires Parked(w, len) && w.toSend < BURST
    ensures w.seqNo != 255
    ensures var n := Plus(w.seqNo, Drift(w.toSend, Ahead(w.seqNo, 255), BURST));
      if Frames(len) < BURST then Drifting(Frames(len), n) else n in {1, 3, 4}
  {
    if w.seqNo == 254 {
      DriftBehind254(w.toSend);
    } else {
      DriftStays(Frames(len), w.seqNo);
    }
  }

  lemma DriftBehind254(frames: nat)
    requires 1 <= frames < BURST
    ensures var n := Plus(254, Drift(frames, Ahead(254, 255), BURST)); Drifting(frames, n) && n in {1, 3, 4}
  {
    assert Ahead(254, 255) == 0;
    DriftForm(frames, 0);
  }

  /** The client has taken the frame numbered 255, and its ACK has ended a wait. */
  predicate Parking(k: Job, x: Net, ring: seq<byte>) {
    && k.role.AsClient? && k.extra == 0 && k.bytes != []
    && x.r.state.Open? && x.r.remoteSeq == 255 && x.r.ring == ring + k.bytes[..End(k, 254, 255)]
    && (forall i | 0 <= i < |x.fwd| :: x.fwd[i].msg.Data?)
    && x.lastAck == 255 && (forall i | 0 <= i < |x.back| :: x.back[i].msg == Ack(255))
    && x.w.result != Some(|k.bytes|) && (x.w.result.None? ==> Parked(x.w, |k.bytes|))
  }

  lemma ParkingSend(k: Job, x: Net, ring: seq<byte>)
    requires Parking(k, x, ring)
    ensures Parking(k, Apply(k, x, SendNext), ring)
  {
    if Apply(k, x, SendNext) != x {
      MidSends(x.w, k.bytes);
    }
  }

  lemma ParkingReceive(k: Job, x: Net, ring: seq<byte>)
    requires Parking(k, x, ring)
    ensures Parking(k, Apply(k, x, DeliverData), ring)
  {
    if x.fwd != [] {
      assert Takes(k.role, x.r, x.fwd[0].msg) == Act(x.r, [Ack(255)]);
    }
  }

  lemma ParkingStep(k: Job, x: Net, ring: seq<byte>, step: Step)
    requires Parking(k, x, ring)
    ensures Parking(k, Apply(k, x, step), ring)
  {
    match step
    case SendNext => ParkingSend(k, x, ring);
    case DeliverData => ParkingReceive(k, x, ring);
    case EndWait =>
      if x.w.result.None? && x.w.sent == x.w.toSend && Sane(x.w, |k.bytes|) {
        ParkedWait(x.w, |k.bytes|);
      }
    case _ =>
  }

  /** Until a wait is answered the invariant of Transfer holds. */
  predicate Unanswered(k: Job, x: Net, s: byte, a: byte, ring: seq<byte>) {
    Inv(k, x, s, a, ring) && !x.hit && !x.answered && x.w.result != Some(|k.bytes|)
  }

  lemma FirstParked(k: Job, x: Net, s: byte, a: byte, ring: seq<byte>)
    requires Unanswered(k, x, s, a, ring) && k.role.AsClient? && s >= 254 && k.extra == 0 && (a == s || a != 255)
    requires x.w.result.None? && x.w.sent == x.w.toSend && Sane(x.w, |k.bytes|)
    requires var y := Concluded(k, x); y.hit || y.answered
    ensures s == 254 && Parking(k, Concluded(k, x), ring)
  {
    AnswerIs255(k, x, s, a, ring);
    FirstParkedWriter(k, x, s);
    ParkedWait(x.w, |k.bytes|);
    AllData(k, x, s);
  }

  lemma AnswerIs255(k: Job, x: Net, s: byte, a: byte, ring: seq<byte>)
    requires Unanswered(k, x, s, a, ring) && k.role.AsClient? && s >= 254 && k.extra == 0 && (a == s || a != 255)
    requires x.w.result.None? && x.w.sent == x.w.toSend && Sane(x.w, |k.bytes|)
    requires var y := Concluded(k, x); y.hit || y.answered
    ensures x.lastAck == 255 && x.base == 254 && x.heard == x.taken == 255
  {
    if !SentinelHit(x.w, x.lastAck) {
      AnswerMeans(k, x, s, a, ring);
    }
  }

  lemma AllData(k: Job, x: Net, s: byte)
    requires ForwardInv(k, x, s)
    ensures forall i | 0 <= i < |x.fwd| :: x.fwd[i].msg.Data?
  {
    forall i | 0 <= i < |x.fwd|
      ensures x.fwd[i].msg.Data?
    {
      assert OnLink(k, s, x.fwd[i]);
    }
  }

  lemma FirstParkedWriter(k: Job, x: Net, s: byte)
    requires WriterInv(k, x, s) && x.w.result.None? && s <= x.base < 255 && s >= 254
    ensures s == 254 && Parked(x.w, |k.bytes|)
  {
    EndIsTotal(k, s, x.base);
  }

  ghost predicate EndInv(k: Job, x: Net, s: byte, a: byte, ring: seq<byte>) {
    Unanswered(k, x, s, a, ring) || (s == 254 && Parking(k, x, ring))
  }

  lemma EndStep(k: Job, x: Net, s: byte, a: byte, ring: seq<byte>, step: Step)
    requires EndInv(k, x, s, a, ring) && k.role.AsClient? && s >= 254 && k.extra == 0 && (a == s || a != 255)
    ensures EndInv(k, Apply(k, x, step), s, a, ring)
  {
    if Unanswered(k, x, s, a, ring) {
      var y := Apply(k, x, step);
      InvStep(k, x, s, a, ring, step);
      if y.hit || y.answered {
        FirstParked(k, x, s, a, ring);
      }
    } else {
      ParkingStep(k, x, ring, step);
    }
  }

  lemma {:induction false} EndRun(k: Job, s: byte, a: byte, r: Endpoint, steps: seq<Step>)
    requires k.role.AsClient? && s >= 254 && k.extra == 0 && k.bytes != [] && Aligned(s, a, r)
    ensures EndInv(k, Run(k, Entered(k, s, a, r), steps), s, a, r.ring)
  {
    if steps == [] {
      InvStart(k, s, a, r);
    } else {
      EndRun(k, s, a, r, steps[..|steps| - 1]);
      EndStep(k, Run(k, Entered(k, s, a, r), steps[..|steps| - 1]), s, a, r.ring, steps[|steps| - 1]);
    }
  }

  /** A write to a client that has recorded 254 or 255 never returns its length, and the client appends the
      first frame at most. */
  lemma WriteNeverSucceeds(k: Job, s: byte, a: byte, r: Endpoint, steps: seq<Step>)
    requires k.role.AsClient? && s >= 254 && k.extra == 0 && k.bytes != [] && Aligned(s, a, r)
    ensures var x := Run(k, Entered(k, s, a, r), steps);
      && x.w.result != Some(|k.bytes|)
      && (x.r.ring == r.ring || (s == 254 && x.r.ring == r.ring + k.bytes[..Min(|k.bytes|, FRAME_BYTES)]))
  {
    EndRun(k, s, a, r, steps);
    EndMeans(k, Run(k, Entered(k, s, a, r), steps), s, a, r.ring);
  }

  lemma EndMeans(k: Job, x: Net, s: byte, a: byte, ring: seq<byte>)
    requires EndInv(k, x, s, a, ring) && k.role.AsClient? && s >= 254 && k.bytes != []
    ensures x.w.result != Some(|k.bytes|)
    ensures x.r.ring == ring || (s == 254 && x.r.ring == ring + k.bytes[..Min(|k.bytes|, FRAME_BYTES)])
  {
    assert ring + k.bytes[..0] == ring;
  }
}
