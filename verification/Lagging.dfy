/** A sender whose number is not the one behind which its receiver waits. */
module Lagging {
  import opened Bytes
  import opened Endpoints
  import opened Writing
  import opened Transfer
  import opened Sessions
  import opened Flows
  import opened Runs

  /** `n` is neither `s` nor one of the four numbers behind it nor the sentinel. */
  predicate Foreign(s: byte, n: byte) {
    n != s && n != 255 && Ahead(s, n) >= BURST
  }

  /** The receiver has recorded a number that no frame of a sender behind `s` follows or carries. */
  predicate Ignored(e: Session, s: byte, ring: seq<byte>) {
    && e.k.bytes != [] && e.k.extra == 0
    && e.x.r.state.Open? && Foreign(s, e.x.r.remoteSeq) && e.x.r.ring == ring
    && e.x.w.seqNo == s && (e.x.lastAck == s || Foreign(s, e.x.lastAck))
    && (e.x.w.result.None? ==> MidBurst(e.x.w, |e.k.bytes|))
    && (e.x.w.result.Some? ==> e.x.w.result.value in {ACK_OUT_OF_SEQUENCE, TIMEOUT})
    && (forall i | 0 <= i < |e.x.fwd| :: e.x.fwd[i].msg.Data? && Ahead(s, e.x.fwd[i].msg.seqNo) < BURST)
    && (forall i | 0 <= i < |e.x.back| :: e.x.back[i].msg == Ack(e.x.r.remoteSeq))
  }

  lemma IgnoredSend(e: Session, s: byte, ring: seq<byte>)
    requires Ignored(e, s, ring)
    ensures Ignored(Proceed(e, Inner(SendNext)), s, ring)
  {
    if Proceed(e, Inner(SendNext)) != e {
      MidSends(e.x.w, e.k.bytes);
      AheadIsIndex(s, Plus(s, e.x.w.sent + 1), e.x.w.sent);
    }
  }

  lemma ForeignFollows(s: byte, n: byte)
    requires Foreign(s, n)
    ensures Ahead(s, Next(n)) >= BURST
  {
  }

  lemma IgnoredReceive(e: Session, s: byte, ring: seq<byte>)
    requires Ignored(e, s, ring)
    ensures Ignored(Proceed(e, Inner(DeliverData)), s, ring)
  {
    if e.x.fwd != [] {
      ForeignFollows(s, e.x.r.remoteSeq);
      assert e.x.fwd[0].msg.seqNo != Next(e.x.r.remoteSeq);
      DeliverOne(e.k, e.x, e.x.r.remoteSeq, e.x.r.ring);
    }
  }

  lemma IgnoredWait(e: Session, s: byte, ring: seq<byte>)
    requires Ignored(e, s, ring)
    ensures Ignored(Proceed(e, Inner(EndWait)), s, ring)
  {
    var f, len := Proceed(e, Inner(EndWait)), |e.k.bytes|;
    if f != e {
      var b := AtStart(e.x.w, len);
      MidEnds(e.x.w, len);
      if e.x.lastAck == s {
        ConcludeForm(b, s, 0, len);
        if f.x.w.result.None? {
          MidStarts(f.x.w, len);
        }
      } else {
        ConcludeMatch(b, e.x.lastAck, 0, len);
      }
    }
  }

  lemma IgnoredMove(e: Session, s: byte, ring: seq<byte>, m: Move)
    requires Ignored(e, s, ring)
    ensures Ignored(Proceed(e, m), s, ring)
  {
    match m
    case Inner(SendNext) => IgnoredSend(e, s, ring);
    case Inner(DeliverData) => IgnoredReceive(e, s, ring);
    case Inner(EndWait) => IgnoredWait(e, s, ring);
    case Inner(step) => IgnoredLink(e, s, ring, step);
    case NewWrite(bytes) => IgnoredBegin(e, s, ring, bytes);
  }

  lemma IgnoredLink(e: Session, s: byte, ring: seq<byte>, step: Step)
    requires Ignored(e, s, ring) && (step.LoseData? || step.LoseAck? || step.DeliverAck?)
    ensures Ignored(Proceed(e, Inner(step)), s, ring)
  {
  }

  lemma IgnoredBegin(e: Session, s: byte, ring: seq<byte>, bytes: seq<byte>)
    requires Ignored(e, s, ring)
    ensures Ignored(Proceed(e, NewWrite(bytes)), s, ring)
  {
    if bytes != [] {
      MidStarts(Writing.Start(s, |bytes|), |bytes|);
    }
  }

  /** Such a sender never gets a byte across, in any number of writes, whatever is delivered: every write
      that ends fails. */
  lemma {:induction false} LaggingForever(k: Job, s: byte, a: byte, r: Endpoint, ms: seq<Move>)
    requires k.bytes != [] && k.extra == 0 && r.state.Open? && Foreign(s, r.remoteSeq) && (a == s || Foreign(s, a))
    ensures var e := ProceedAll(Opening(k, s, a, r), ms);
      && Ignored(e, s, r.ring)
      && e.x.r.ring == r.ring && (e.x.w.result.None? || e.x.w.result.value in {ACK_OUT_OF_SEQUENCE, TIMEOUT})
  {
    if ms == [] {
      MidStarts(Writing.Start(s, |k.bytes|), |k.bytes|);
    } else {
      LaggingForever(k, s, a, r, ms[..|ms| - 1]);
      IgnoredMove(ProceedAll(Opening(k, s, a, r), ms[..|ms| - 1]), s, r.ring, ms[|ms| - 1]);
    }
  }

  /** A client that has recorded 255 accepts nothing at all. */
  predicate Stopped(k: Job, x: Net, r: Endpoint) {
    && k.role.AsClient? && r.state.Open? && r.remoteSeq == 255 && x.r == r
    && forall i | 0 <= i < |x.fwd| :: x.fwd[i].msg.Data?
  }

  lemma StoppedStep(k: Job, x: Net, r: Endpoint, step: Step)
    requires Stopped(k, x, r)
    ensures Stopped(k, Apply(k, x, step), r)
  {
    if step.DeliverData? && x.fwd != [] {
      assert Takes(k.role, x.r, x.fwd[0].msg) == Act(x.r, [Ack(255)]);
    }
  }

  lemma {:induction false} ClientStopsAt255(k: Job, x: Net, r: Endpoint, steps: seq<Step>)
    requires Stopped(k, x, r)
    ensures Stopped(k, Run(k, x, steps), r)
  {
    if steps != [] {
      ClientStopsAt255(k, x, r, steps[..|steps| - 1]);
      StoppedStep(k, Run(k, x, steps[..|steps| - 1]), r, steps[|steps| - 1]);
    }
  }

  lemma {:induction false} RefuseMany(k: Job, x0: Net, x: Net, j: nat) returns (y: Net)
    requires Reaches(k, x0, x) && j <= |x.fwd| && x.r.state.Open?
    requires forall i | 0 <= i < j :: x.fwd[i].msg.Data? && x.fwd[i].msg.seqNo != Next(x.r.remoteSeq)
    ensures Reaches(k, x0, y) && y.r == x.r && y.fwd == x.fwd[j..]
  {
    if j == 0 {
      y := x;
    } else {
      y := RefuseMany(k, x0, x, j - 1);
      y := ReachRejected(k, x0, y);
    }
  }

  /** The frame with index `j` of a burst carries the number that the receiver waits for. */
  lemma CrossAt(k: Job, x0: Net, x: Net, j: nat) returns (y: Net)
    requires Reaches(k, x0, x) && AtBurstStart(x.w, |k.bytes|) && x.w.result.None? && j < x.w.toSend && x.fwd == []
    requires x.r.state.Open? && Next(x.r.remoteSeq) == Plus(x.w.seqNo, j + 1)
    requires (k.role.AsServer? || x.r.remoteSeq < 255)
    ensures Reaches(k, x0, y) && |y.r.ring| > |x.r.ring|
  {
    BurstStartForm(x.w, |k.bytes|);
    FrameSize(x.w, j, k.bytes);
    var u := ReachFrames(k, x0, x, j + 1);
    forall i | 0 <= i < j
      ensures u.fwd[i].msg.seqNo != Next(x.r.remoteSeq)
    {
      AheadIsIndex(x.w.seqNo, Plus(x.w.seqNo, i + 1), i);
      AheadIsIndex(x.w.seqNo, Plus(x.w.seqNo, i + 1), j);
    }
    u := RefuseMany(k, x0, u, j);
    y := ReachAccepted(k, x0, u);
  }

  function Zeros(n: nat): (bytes: seq<byte>)
    ensures |bytes| == n
  {
    seq(n, i => 0)
  }

  /** The receiver's number is that of the fourth frame: it is taken for an answer, and the number after it
      is that of the second frame of the next burst. */
  lemma CrossBehindFourth(k: Job, s: byte, a: byte, r: Endpoint) returns (z: Net)
    requires k.extra == 0 && |k.bytes| == 8 * FRAME_BYTES && r.state.Open? && r.remoteSeq == Plus(s, 4)
    requires k.role.AsServer? || r.remoteSeq < 255
    ensures Reaches(k, Entered(k, s, a, r), z) && |z.r.ring| > |r.ring|
  {
    var x := Entered(k, s, a, r);
    assert AtBurstStart(x.w, |k.bytes|) && x.w.toSend == 4;
    ReachStart(k, x);
    var y := ReachFrames(k, x, x, 4);
    AroundFourth(s);
    y := ReachRejected(k, x, y);
    y := ReachAck(k, x, y);
    z := BehindFourth(k, x, x, y);
  }

  lemma AroundFourth(s: byte)
    ensures Plus(s, 1) != Next(Plus(s, 4)) == Plus(Plus(s, 3), 2)
  {
  }

  lemma BehindFourth(k: Job, x0: Net, x: Net, y: Net) returns (z: Net)
    requires Reaches(k, x0, y) && k.extra == 0 && |k.bytes| == 8 * FRAME_BYTES
    requires AtBurstStart(x.w, |k.bytes|) && x.w.result.None? && x.w.initial == 0 && x.w.toSend == BURST
    requires y.w == AfterFrames(x.w, BURST, |k.bytes|) && y.lastAck == y.r.remoteSeq == Plus(x.w.seqNo, 4)
    requires y.r.state.Open?
    requires k.role.AsServer? || y.r.remoteSeq < 255
    ensures Reaches(k, x0, z) && |z.r.ring| > |y.r.ring|
  {
    var u := ReachEmpty(k, x0, y);
    u := ReachAnswered(k, x0, x.w, 4, u);
    AroundFourth(x.w.seqNo);
    BurstStartForm(u.w, |k.bytes|);
    z := CrossAt(k, x0, u, 1);
  }

  /** A write of three frames begins, to a server that has recorded 255, and 255 is the last ACK heard. */
  predicate Drifts(k: Job, y: Net) {
    && k.extra == 0 && k.role.AsServer? && |k.bytes| == 3 * FRAME_BYTES
    && AtBurstStart(y.w, |k.bytes|) && y.w.result.None? && y.w.toSend == 3 && y.w.initial == 0 && y.fwd == []
    && y.lastAck == 255
    && y.r.state.Open? && y.r.remoteSeq == 255 && y.w.seqNo != 255
  }

  lemma DriftOnce(k: Job, x0: Net, y: Net) returns (z: Net)
    requires Reaches(k, x0, y) && Drifts(k, y) && y.w.seqNo < 253
    ensures Reaches(k, x0, z) && Drifts(k, z) && z.r == y.r
    ensures z.w.seqNo == if y.w.seqNo == 252 then 1 else y.w.seqNo + 3
  {
    ThreeDrifts(y.w.seqNo);
    var u := ReachFrames(k, x0, y, 3);
    u := ReachHit(k, x0, y.w, u);
    z := ReachEmpty(k, x0, u);
  }

  /** A server that has recorded 255 answers every frame with the sentinel: a write of three frames drifts
      until one of them is numbered 0. */
  lemma {:induction false} CrossByDrift(k: Job, x0: Net, y: Net) returns (z: Net)
    requires Reaches(k, x0, y) && Drifts(k, y)
    ensures Reaches(k, x0, z) && |z.r.ring| > |y.r.ring|
    decreases if y.w.seqNo % 3 == 0 then 1 else 0, 255 - y.w.seqNo
  {
    if y.w.seqNo >= 253 {
      z := CrossAfterDrift(k, x0, y);
    } else {
      z := DriftOnce(k, x0, y);
      z := CrossByDrift(k, x0, z);
    }
  }

  lemma CrossAfterDrift(k: Job, x0: Net, y: Net) returns (z: Net)
    requires Reaches(k, x0, y) && Drifts(k, y) && y.w.seqNo >= 253
    ensures Reaches(k, x0, z) && |z.r.ring| > |y.r.ring|
  {
    z := CrossAt(k, x0, y, 255 - y.w.seqNo);
  }

  lemma ThreeDrifts(n: byte)
    requires n < 253
    ensures Plus(n, Drift(3, Ahead(n, 255), BURST)) == if n == 252 then 1 else n + 3
  {
    assert Ahead(n, 255) == 254 - n;
    DriftForm(3, 254 - n);
  }

  lemma CrossAt255(k: Job, s: byte, a: byte, r: Endpoint) returns (z: Net)
    requires k.extra == 0 && k.role.AsServer? && |k.bytes| == 3 * FRAME_BYTES && s < 251 && r.state.Open?
    requires r.remoteSeq == 255
    ensures Reaches(k, Entered(k, s, a, r), z) && |z.r.ring| > |r.ring|
  {
    var x := Entered(k, s, a, r);
    assert AtBurstStart(x.w, |k.bytes|) && x.w.toSend == 3;
    ReachStart(k, x);
    var y := ReachFrames(k, x, x, 3);
    y := ReachRejected(k, x, y);
    y := ReachAck(k, x, y);
    y := ReachEmpty(k, x, y);
    y := ReachHit(k, x, x.w, y);
    ThreeDrifts(s);
    z := CrossByDrift(k, x, y);
  }

  /** The write by which a byte crosses if any does. */
  function CrossingWrite(s: byte, n: byte, role: Role): Job {
    Job(Zeros(FRAME_BYTES * if n == Plus(s, 4) then 8 else if n == 255 && s < 252 then 3 else 4), 0, role)
  }

  lemma Crosses(role: Role, s: byte, a: byte, r: Endpoint) returns (z: Net)
    requires r.state.Open? && !Foreign(s, r.remoteSeq) && !(role.AsClient? && r.remoteSeq == 255)
    ensures Reaches(CrossingWrite(s, r.remoteSeq, role), Entered(CrossingWrite(s, r.remoteSeq, role), s, a, r), z)
    ensures |z.r.ring| > |r.ring|
  {
    var k, n := CrossingWrite(s, r.remoteSeq, role), r.remoteSeq;
    if n == Plus(s, 4) {
      z := CrossBehindFourth(k, s, a, r);
    } else if n == 255 && s < 252 {
      z := CrossAt255(k, s, a, r);
    } else {
      var x, j := Entered(k, s, a, r), if n == s then 0 else Ahead(s, n) + 1;
      assert AtBurstStart(x.w, |k.bytes|) && x.w.toSend == 4;
      NearNumbers(s, n);
      ReachStart(k, x);
      z := CrossAt(k, x, x, j);
    }
  }

  lemma NearNumbers(s: byte, n: byte)
    requires n == s || Ahead(s, n) < 3 || (n == 255 && s >= 252)
    ensures var j := if n == s then 0 else Ahead(s, n) + 1; j < 4 && Next(n) == Plus(s, j + 1)
  {
  }

  /** Exactly when nothing can cross: in no run of any write does the receiver append a byte if and only if
      its number is neither the sender's nor one of the four behind it nor 255; or it is a client at 255. */
  lemma NothingCrossesExactly(role: Role, s: byte, a: byte, r: Endpoint)
    requires r.state.Open? && (a == s || Foreign(s, a))
    ensures (forall bytes: seq<byte>, steps | bytes != [] ::
               Run(Job(bytes, 0, role), Entered(Job(bytes, 0, role), s, a, r), steps).r.ring == r.ring)
            <==> Foreign(s, r.remoteSeq) || (role.AsClient? && r.remoteSeq == 255)
  {
    if Foreign(s, r.remoteSeq) || (role.AsClient? && r.remoteSeq == 255) {
      forall bytes: seq<byte>, steps | bytes != []
        ensures Run(Job(bytes, 0, role), Entered(Job(bytes, 0, role), s, a, r), steps).r.ring == r.ring
      {
        var k := Job(bytes, 0, role);
        if Foreign(s, r.remoteSeq) {
          var ms := RunIsSession(k, s, a, r, steps);
          LaggingForever(k, s, a, r, ms);
        } else {
          ClientStopsAt255(k, Entered(k, s, a, r), r, steps);
        }
      }
    } else {
      var k := CrossingWrite(s, r.remoteSeq, role);
      var z := Crosses(role, s, a, r);
      var steps :| Run(k, Entered(k, s, a, r), steps) == z;
      assert k == Job(k.bytes, 0, role) && k.bytes != [] && Run(k, Entered(k, s, a, r), steps).r.ring != r.ring;
    }
  }
}
