/** write() as the source has it, for more frames: runs that lose bytes, and exactly when there are any. */
module LongWrites {
  import opened Bytes
  import opened Endpoints
  import opened Writing
  import opened Transfer
  import opened Runs
  import opened ShortWrites
  import opened ClientEnd

  /** A sender that lags by one takes the ACK it has heard for an answer to every burst. So it returns the
      number of all bytes without another byte being delivered. */
  lemma {:induction false} StaleRun(k: Job, x0: Net, y: Net) returns (z: Net)
    requires Reaches(k, x0, y) && k.extra == 0 && AtBurstStart(y.w, |k.bytes|) && y.w.result.None?
    requires y.lastAck == Plus(y.w.seqNo, 1) != 255
    ensures Reaches(k, x0, z) && z.w.result == Some(|k.bytes|) && z.r == y.r
    decreases |k.bytes| - y.w.initial
  {
    BurstStartForm(y.w, |k.bytes|);
    var u := ReachSent(k, x0, y, y.w.toSend);
    if PosAfter(y.w.initial, 1, |k.bytes|) == |k.bytes| {
      z := ReachEnd(k, x0, y.w, 1, u);
    } else {
      PlusTwice(y.w.seqNo, 0, 1);
      z := ReachAnswered(k, x0, y.w, 1, u);
      z := StaleRun(k, x0, z);
    }
  }

  lemma EntryWaits(k: Job, s: byte, a: byte, r: Endpoint)
    requires Aligned(s, a, r) && k.bytes != []
    ensures var x := Entered(k, s, a, r); Waiting(k, x, 0) && x.w.initial == 0 && x.w.toSend == Min(Total(k), BURST)
  {
  }

  /** The ACK of the `m`-th frame is the answer to the first burst; the other frames may still be under way. */
  lemma ReachAnswer(k: Job, x: Net, m: nat) returns (y: Net)
    requires Waiting(k, x, 0) && x.w.initial == 0 && 0 < m <= x.w.toSend && FRAME_BYTES * m <= |k.bytes|
    requires (Plus(x.w.seqNo, m) != 255 || x.w.toSend == BURST) && (k.role.AsServer? || x.w.seqNo + m <= 255)
    ensures Reaches(k, x, y) && AnsweredAt(k, x.w, m, y)
    ensures y.r == x.r.(remoteSeq := Plus(x.w.seqNo, m), ring := x.r.ring + k.bytes[..FRAME_BYTES * m])
  {
    y := ReachHeard(k, x, m);
  }

  /** The receiver is a client that takes no second frame. */
  predicate AtEnd(role: Role, s: byte) {
    role.AsClient? && s >= 254
  }

  /** A write that is not of one frame, nor of two behind 254, can return its length although only the
      first frame's bytes were delivered, or the first two's behind 254; whatever the bytes. */
  lemma LongWriteMayLose(k: Job, s: byte, a: byte, r: Endpoint) returns (z: Net)
    requires k.extra == 0 && Aligned(s, a, r) && !Trustworthy(|k.bytes|, s) && !AtEnd(k.role, s)
    ensures Reaches(k, Entered(k, s, a, r), z) && z.w.result == Some(|k.bytes|)
    ensures z.r.ring == r.ring + k.bytes[..FRAME_BYTES * if s == 254 then 2 else 1]
  {
    var x, m := Entered(k, s, a, r), if s == 254 then 2 else 1;
    EntryWaits(k, s, a, r);
    var y := ReachAnswer(k, x, m);
    y := ReachAnswered(k, x, x.w, m, y);
    PlusTwice(s, m - 1, 1);
    z := StaleRun(k, x, y);
  }

  /** After a write of one frame that has succeeded, every second write can return its length although none
      of its bytes is delivered: the sender uses the first one's number again. */
  lemma SecondWriteMayLose(k: Job, s: byte, a: byte, r: Endpoint, steps: seq<Step>, bytes: seq<byte>) returns (z: Net)
    requires 0 < |k.bytes| <= FRAME_BYTES && k.extra == 0 && Aligned(s, a, r) && bytes != []
    requires Run(k, Entered(k, s, a, r), steps).w.result == Some(|k.bytes|)
    ensures var x := Run(k, Entered(k, s, a, r), steps);
      && Reaches(k.(bytes := bytes), x.(w := Writing.Start(x.w.seqNo, |bytes|)), z)
      && z.w.result == Some(|bytes|) && z.r == x.r
  {
    var x := Run(k, Entered(k, s, a, r), steps);
    StaleBehindSuccess(k, s, a, r, steps);
    var y := x.(w := Writing.Start(x.w.seqNo, |bytes|));
    ReachStart(k.(bytes := bytes), y);
    z := StaleRun(k.(bytes := bytes), y, y);
  }

  /** Exactly when success can be trusted: from an aligned start, the source's write delivers what it
      returns, in every run, if and only if the bytes fit one frame, or two behind 254, or the receiver is a
      client at 254 or 255, where write never succeeds. */
  lemma TrustedExactly(k: Job, s: byte, a: byte, r: Endpoint)
    requires k.bytes != [] && k.extra == 0 && Aligned(s, a, r)
    ensures (forall steps :: Honest(k, r, Run(k, Entered(k, s, a, r), steps)))
      <==> Trustworthy(|k.bytes|, s) || AtEnd(k.role, s)
  {
    if Trustworthy(|k.bytes|, s) || AtEnd(k.role, s) {
      forall steps
        ensures Honest(k, r, Run(k, Entered(k, s, a, r), steps))
      {
        if Trustworthy(|k.bytes|, s) {
          TrustworthyIsSafe(k, s, a, r, steps);
        } else {
          WriteNeverSucceeds(k, s, a, r, steps);
        }
      }
    } else {
      var z := LongWriteMayLose(k, s, a, r);
      var steps :| Run(k, Entered(k, s, a, r), steps) == z;
      assert |z.r.ring| != |r.ring + k.bytes|;
      assert !Honest(k, r, Run(k, Entered(k, s, a, r), steps));
    }
  }

  /** Under which number, and in which frame, the receiver of a long write is given the wrong bytes. */
  function GapRing(bytes: seq<byte>, s: byte): seq<byte>
    requires |bytes| > 2 * FRAME_BYTES
  {
    if s == 254 && |bytes| <= 3 * FRAME_BYTES then bytes + bytes[..FRAME_BYTES]
    else bytes[..FRAME_BYTES] + bytes[2 * FRAME_BYTES..Min(3 * FRAME_BYTES, |bytes|)]
  }

  /** The first frame is answered and the others are lost: the second frame's bytes go out under the first
      one's number and are refused, the third one's under the second one's and are taken. */
  lemma GapByAnswer(k: Job, s: byte, a: byte, r: Endpoint) returns (z: Net)
    requires k.extra == 0 && Aligned(s, a, r) && |k.bytes| > 2 * FRAME_BYTES && !AtEnd(k.role, s)
    requires s != 254 || |k.bytes| > 3 * FRAME_BYTES
    ensures Reaches(k, Entered(k, s, a, r), z)
    ensures z.r.ring == r.ring + k.bytes[..FRAME_BYTES] + k.bytes[2 * FRAME_BYTES..Min(3 * FRAME_BYTES, |k.bytes|)]
  {
    var y := OnlyFirstTaken(k, s, a, r);
    z := GapBehind(k, Entered(k, s, a, r), y, s);
  }

  lemma OnlyFirstTaken(k: Job, s: byte, a: byte, r: Endpoint) returns (y: Net)
    requires k.extra == 0 && Aligned(s, a, r) && |k.bytes| > 2 * FRAME_BYTES && !AtEnd(k.role, s)
    requires s != 254 || |k.bytes| > 3 * FRAME_BYTES
    ensures Reaches(k, Entered(k, s, a, r), y) && AtBurstStart(y.w, |k.bytes|) && y.w.result.None? && y.fwd == []
    ensures y.w.initial == FRAME_BYTES && y.w.seqNo == s && y.r.state.Open? && y.r.remoteSeq == Plus(s, 1)
    ensures y.r.ring == r.ring + k.bytes[..FRAME_BYTES]
  {
    y := FirstAnswered(k, s, a, r);
    y := NextBurst(k, Entered(k, s, a, r), y);
  }

  lemma NextBurst(k: Job, x: Net, y: Net) returns (z: Net)
    requires Reaches(k, x, y) && AnsweredAt(k, x.w, 1, y) && x.w.initial == 0 && |k.bytes| > FRAME_BYTES && k.extra == 0
    ensures Reaches(k, x, z) && AtBurstStart(z.w, |k.bytes|) && z.w.result.None? && z.fwd == []
    ensures z.w.initial == FRAME_BYTES && z.w.seqNo == x.w.seqNo && z.r == y.r
  {
    SecondFrame(|k.bytes|, x.w.seqNo);
    var u := ReachAnswered(k, x, x.w, 1, y);
    z := ReachEmpty(k, x, u);
  }

  lemma SecondFrame(len: nat, n: byte)
    requires len > FRAME_BYTES
    ensures PosAfter(0, 1, len) == FRAME_BYTES && Plus(n, 0) == n
  {
  }

  lemma FirstAnswered(k: Job, s: byte, a: byte, r: Endpoint) returns (y: Net)
    requires k.extra == 0 && Aligned(s, a, r) && |k.bytes| > 2 * FRAME_BYTES && !AtEnd(k.role, s)
    requires s != 254 || |k.bytes| > 3 * FRAME_BYTES
    ensures var x := Entered(k, s, a, r); Reaches(k, x, y) && AnsweredAt(k, x.w, 1, y)
    ensures y.r == r.(remoteSeq := Plus(s, 1), ring := r.ring + k.bytes[..FRAME_BYTES])
  {
    EntryWaits(k, s, a, r);
    FullBurst(|k.bytes|, s);
    y := ReachAnswer(k, Entered(k, s, a, r), 1);
  }

  lemma FullBurst(len: nat, s: byte)
    requires len > 2 * FRAME_BYTES && (s != 254 || len > 3 * FRAME_BYTES)
    ensures Min(Frames(len), BURST) >= 3 && (Plus(s, 1) == 255 ==> Min(Frames(len), BURST) == BURST)
  {
  }

  lemma GapBehind(k: Job, x: Net, y: Net, s: byte) returns (z: Net)
    requires Reaches(k, x, y) && AtBurstStart(y.w, |k.bytes|) && y.w.result.None? && y.fwd == []
    requires y.w.initial == FRAME_BYTES && |k.bytes| > 2 * FRAME_BYTES && y.w.seqNo == s
    requires y.r.state.Open? && y.r.remoteSeq == Plus(s, 1) && (k.role.AsServer? || y.r.remoteSeq < 255)
    ensures Reaches(k, x, z)
    ensures z.r.ring == y.r.ring + k.bytes[2 * FRAME_BYTES..Min(3 * FRAME_BYTES, |k.bytes|)]
  {
    BurstStartForm(y.w, |k.bytes|);
    var u := ReachFrames(k, x, y, 2);
    SecondAndThird(k, y, s);
    assert u.fwd == [u.fwd[0], u.fwd[1]];
    u := ReachRejected(k, x, u);
    z := ReachAccepted(k, x, u);
  }

  lemma SecondAndThird(k: Job, y: Net, s: byte)
    requires |k.bytes| > 2 * FRAME_BYTES && y.w.initial == FRAME_BYTES && y.w.seqNo == s
    ensures BurstFrame(y.w, 0, k.bytes).seqNo == Plus(s, 1) != Next(Plus(s, 1))
    ensures BurstFrame(y.w, 1, k.bytes) ==
      Data(Next(Plus(s, 1)), k.bytes[2 * FRAME_BYTES..Min(3 * FRAME_BYTES, |k.bytes|)])
  {
    PlusTwice(s, 1, 1);
  }

  /** The write starts over behind 1 with two frames of the first burst under way. */
  predicate StartedOver(k: Job, u: Net)
    requires |k.bytes| > 2 * FRAME_BYTES
  {
    && u.w.result.None? && AtBurstStart(u.w, |k.bytes|) && u.w.initial == 0 && u.w.seqNo == 1
    && u.r.state.Open? && u.r.remoteSeq == 255 && |u.fwd| == 2
    && u.fwd[0].msg == Data(0, k.bytes[FRAME_BYTES..2 * FRAME_BYTES])
    && u.fwd[1].msg == Data(1, k.bytes[2 * FRAME_BYTES..])
  }

  lemma HitBehindFirst(k: Job, x: Net) returns (u: Net)
    requires k.extra == 0 && Waiting(k, x, 0) && x.w.initial == 0 && x.w.toSend == 3 && x.w.seqNo == 254
    requires k.role.AsServer?
    requires 2 * FRAME_BYTES < |k.bytes| <= 3 * FRAME_BYTES
    ensures Reaches(k, x, u) && StartedOver(k, u) && u.r.ring == x.r.ring + k.bytes[..FRAME_BYTES]
  {
    var y := ReachHeard(k, x, 1);
    DriftOfThreeBehind254();
    LaterTwo(k, x.w);
    u := ReachHit(k, x, x.w, y);
  }

  lemma DriftOfThreeBehind254()
    ensures Plus(254, Drift(3, Ahead(254, 255), BURST)) == 1 && Plus(254, 1) == 255
  {
    DriftForm(3, Ahead(254, 255));
  }

  lemma LaterTwo(k: Job, b: Writer)
    requires b.initial == 0 && b.seqNo == 254 && 2 * FRAME_BYTES < |k.bytes| <= 3 * FRAME_BYTES
    ensures BurstFrame(b, 1, k.bytes) == Data(0, k.bytes[FRAME_BYTES..2 * FRAME_BYTES])
    ensures BurstFrame(b, 2, k.bytes) == Data(1, k.bytes[2 * FRAME_BYTES..])
  {
    assert k.bytes[2 * FRAME_BYTES..] == k.bytes[2 * FRAME_BYTES..|k.bytes|];
  }

  /** Three frames behind 254: the ACK of the first matches the unused slot, and the write starts over while
      the other two are taken; the first one's bytes are then taken again. */
  lemma GapBySentinel(k: Job, a: byte, r: Endpoint) returns (z: Net)
    requires k.extra == 0 && k.role.AsServer? && Aligned(254, a, r) && 2 * FRAME_BYTES < |k.bytes| <= 3 * FRAME_BYTES
    ensures Reaches(k, Entered(k, 254, a, r), z) && z.r.ring == r.ring + (k.bytes + k.bytes[..FRAME_BYTES])
  {
    var x := Entered(k, 254, a, r);
    EntryWaits(k, 254, a, r);
    var u := HitBehindFirst(k, x);
    z := TwoAndAgain(k, x, u);
    WholeAndFirst(r.ring, k.bytes);
  }

  lemma WholeAndFirst(ring: seq<byte>, bytes: seq<byte>)
    requires |bytes| > FRAME_BYTES
    ensures ring + bytes[..FRAME_BYTES] + bytes[FRAME_BYTES..] + bytes[..FRAME_BYTES] ==
      ring + (bytes + bytes[..FRAME_BYTES])
  {
    assert bytes[..FRAME_BYTES] + bytes[FRAME_BYTES..] == bytes;
  }

  lemma TwoAndAgain(k: Job, x: Net, u: Net) returns (z: Net)
    requires Reaches(k, x, u) && 2 * FRAME_BYTES < |k.bytes| <= 3 * FRAME_BYTES && k.role.AsServer? && StartedOver(k, u)
    ensures Reaches(k, x, z) && z.r.ring == u.r.ring + k.bytes[FRAME_BYTES..] + k.bytes[..FRAME_BYTES]
  {
    var v := ReachAccepted(k, x, u);
    assert v.fwd == [u.fwd[1]];
    v := ReachAccepted(k, x, v);
    assert v.r.ring == u.r.ring + k.bytes[FRAME_BYTES..];
    z := FirstAgain(k, x, v);
  }

  lemma FirstAgain(k: Job, x: Net, v: Net) returns (z: Net)
    requires Reaches(k, x, v) && AtBurstStart(v.w, |k.bytes|) && v.w.result.None? && v.w.initial == 0 && v.w.seqNo == 1
    requires |k.bytes| > FRAME_BYTES && k.role.AsServer? && v.fwd == [] && v.r.state.Open? && v.r.remoteSeq == 1
    ensures Reaches(k, x, z) && z.r.ring == v.r.ring + k.bytes[..FRAME_BYTES]
  {
    var u := ReachFrames(k, x, v, 1);
    z := ReachAccepted(k, x, u);
  }

  /** In a run of every write of more than two frames the receiver appends the wrong bytes. */
  lemma LongWriteOutOfOrder(k: Job, s: byte, a: byte, r: Endpoint) returns (z: Net)
    requires k.extra == 0 && Aligned(s, a, r) && |k.bytes| > 2 * FRAME_BYTES && !AtEnd(k.role, s)
    ensures Reaches(k, Entered(k, s, a, r), z) && z.r.ring == r.ring + GapRing(k.bytes, s)
  {
    if s == 254 && |k.bytes| <= 3 * FRAME_BYTES {
      z := GapBySentinel(k, a, r);
    } else {
      z := GapByAnswer(k, s, a, r);
      assert z.r.ring == r.ring + GapRing(k.bytes, s);
    }
  }

  /** The receiver has appended a prefix of the bytes. */
  predicate InOrder(k: Job, r: Endpoint, x: Net) {
    r.ring <= x.r.ring <= r.ring + k.bytes
  }

  /** `n` bytes of which the third frame's differ from the second one's. */
  function Marked(n: nat): (bytes: seq<byte>)
    ensures |bytes| == n
  {
    seq(n, i requires 0 <= i < n => if i < 2 * FRAME_BYTES then 0 else 1)
  }

  /** Exactly when bytes arrive in good order: from an aligned start, the receiver has a prefix of the bytes
      in every run of every write of `n` bytes if and only if these take at most two frames, or it is a
      client at 254 or 255. */
  lemma InOrderExactly(n: nat, role: Role, s: byte, a: byte, r: Endpoint)
    requires n > 0 && Aligned(s, a, r)
    ensures (forall bytes: seq<byte>, steps | |bytes| == n ::
               InOrder(Job(bytes, 0, role), r, Run(Job(bytes, 0, role), Entered(Job(bytes, 0, role), s, a, r), steps)))
            <==> n <= 2 * FRAME_BYTES || AtEnd(role, s)
  {
    if n <= 2 * FRAME_BYTES || AtEnd(role, s) {
      forall bytes: seq<byte>, steps | |bytes| == n
        ensures InOrder(Job(bytes, 0, role), r, Run(Job(bytes, 0, role), Entered(Job(bytes, 0, role), s, a, r), steps))
      {
        if n <= 2 * FRAME_BYTES {
          ShortWritesInOrder(Job(bytes, 0, role), s, a, r, steps);
        } else {
          WriteNeverSucceeds(Job(bytes, 0, role), s, a, r, steps);
        }
      }
    } else {
      var k := Job(Marked(n), 0, role);
      var z := LongWriteOutOfOrder(k, s, a, r);
      var steps :| Run(k, Entered(k, s, a, r), steps) == z;
      GapIsNoPrefix(n, s);
      PrefixBehind(r.ring, GapRing(k.bytes, s), k.bytes);
      assert !InOrder(k, r, Run(k, Entered(k, s, a, r), steps));
    }
  }

  lemma GapIsNoPrefix(n: nat, s: byte)
    requires n > 2 * FRAME_BYTES
    ensures !(GapRing(Marked(n), s) <= Marked(n))
  {
    if !(s == 254 && n <= 3 * FRAME_BYTES) {
      assert GapRing(Marked(n), s)[FRAME_BYTES] == 1 && Marked(n)[FRAME_BYTES] == 0;
    }
  }

  lemma PrefixBehind(a: seq<byte>, b: seq<byte>, c: seq<byte>)
    ensures a + b <= a + c <==> b <= c
  {
    if a + b <= a + c {
      assert (a + b)[|a|..] == b && (a + c)[|a|..|a| + |b|] == c[..|b|];
    }
  }
}
