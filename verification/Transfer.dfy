/** One write() over two lossy FIFO links: the sender of module Writing against the in-order receiver
    of module Endpoints, with every schedule of sending, loss, delivery and timeouts. */
module Transfer {
  import opened Bytes
  import opened Endpoints
  import opened Links
  import opened Writing

  /** What stays fixed: the bytes written, what the sender adds to its number beyond the index of an
      acknowledged slot (0 in the source), and the kind of receiver. */
  datatype Job = Job(bytes: seq<byte>, extra: nat, role: Role)

  /** The sender's variables and last_recved_ack, the receiver, and the links. The rest is history: the
      unbounded numbers of the sender (`base`), of the last frame taken by the receiver and of the last
      ACK heard by the sender, and whether a wait has been answered, an ACK of 255 has matched an unused slot,
      and anything was lost or a wait ended with another ACK than that of the burst's last frame. */
  datatype Net = Net(
    w: Writer, lastAck: byte, r: Endpoint, fwd: seq<Tagged>, back: seq<Tagged>,
    base: nat, taken: nat, heard: nat, answered: bool, hit: bool, rough: bool)

  datatype Step = SendNext | LoseData(i: nat) | DeliverData | LoseAck(j: nat) | DeliverAck | EndWait

  /** What the sender's variables satisfy at all times. */
  predicate Sane(w: Writer, len: nat) {
    && w.pos <= len && w.initial <= len && w.sent <= w.toSend <= BURST
    && forall i | 0 <= i < BURST :: w.slots[i].pos <= len
  }

  function Concluded(k: Job, x: Net): Net
    requires Sane(x.w, |k.bytes|)
  {
    var v := Conclude(x.w, x.lastAck, k.extra, |k.bytes|);
    var answer := x.lastAck != x.w.seqNo && v.result != Some(ACK_OUT_OF_SEQUENCE);
    x.(w := v, hit := x.hit || SentinelHit(x.w, x.lastAck), answered := x.answered || answer,
       base := if answer then x.base + Ahead(x.w.seqNo, x.lastAck) + k.extra else x.base,
       rough := x.rough || x.lastAck != FinalSeq(x.w))
  }

  function Received(k: Job, x: Net): Net
    requires x.fwd != []
  {
    var act := Takes(k.role, x.r, x.fwd[0].msg);
    var now := if act.ep.remoteSeq != x.r.remoteSeq then x.taken + 1 else x.taken;
    x.(r := act.ep, fwd := x.fwd[1..], taken := now, back := x.back + Tag(now, act.out))
  }

  /** One atomic step; a step that is not enabled changes nothing. A wait may end at any time. */
  function Apply(k: Job, x: Net, step: Step): Net {
    match step
    case SendNext =>
      if x.w.result.None? && x.w.sent < x.w.toSend && Sane(x.w, |k.bytes|) then
        x.(w := SendFrame(x.w, |k.bytes|), fwd := x.fwd + [Tagged(x.base + x.w.sent + 1, FrameOf(x.w, k.bytes))])
      else x
    case LoseData(i) => x.(fwd := Drop(x.fwd, i), rough := true)
    case DeliverData => if x.fwd == [] then x else Received(k, x)
    case LoseAck(i) => x.(back := Drop(x.back, i), rough := true)
    case DeliverAck =>
      if x.back == [] then x
      else x.(back := x.back[1..], lastAck := x.back[0].msg.seqNo, heard := x.back[0].index)
    case EndWait =>
      if x.w.result.None? && x.w.sent == x.w.toSend && Sane(x.w, |k.bytes|) then Concluded(k, x) else x
  }

  function Run(k: Job, x: Net, steps: seq<Step>): Net {
    if steps == [] then x else Apply(k, Run(k, x, steps[..|steps| - 1]), steps[|steps| - 1])
  }

  /** write() has just been entered behind number `s`, the last ACK heard was `a`, nothing is under way. */
  function Entered(k: Job, s: byte, a: byte, r: Endpoint): Net {
    Net(Writing.Start(s, |k.bytes|), a, r, [], [], s, s, s, false, false, false)
  }

  /** If write has returned the number of all bytes, the receiver has appended them. */
  predicate Honest(k: Job, r: Endpoint, x: Net) {
    x.w.result == Some(|k.bytes|) ==> x.r.ring == r.ring + k.bytes
  }

  lemma SaneStep(k: Job, x: Net, step: Step)
    requires Sane(x.w, |k.bytes|)
    ensures Sane(Apply(k, x, step).w, |k.bytes|)
  {
    if step.EndWait? {
      MatchedPosition(x.w, x.lastAck, k.extra, BURST, |k.bytes|);
    }
  }

  /** The positions never pass the end of the bytes, in any run whatever: `len - bytes_pos` never
      underflows, and a burst has at most four frames. */
  lemma {:induction false} PositionsInRange(k: Job, s: byte, a: byte, r: Endpoint, steps: seq<Step>)
    ensures Sane(Run(k, Entered(k, s, a, r), steps).w, |k.bytes|)
  {
    if steps != [] {
      PositionsInRange(k, s, a, r, steps[..|steps| - 1]);
      SaneStep(k, Run(k, Entered(k, s, a, r), steps[..|steps| - 1]), steps[|steps| - 1]);
    }
  }

  /** The end of frame `n` of a write that began behind `s0`. */
  function End(k: Job, s0: nat, n: nat): nat {
    if n <= s0 then 0 else Min(|k.bytes|, FRAME_BYTES * (n - s0))
  }

  function Total(k: Job): nat {
    Frames(|k.bytes|)
  }

  lemma EndsGrow(k: Job, s0: nat, n: nat)
    ensures End(k, s0, n) <= End(k, s0, n + 1) <= |k.bytes|
    ensures n >= s0 ==> End(k, s0, n + 1) == End(k, s0, n) + Min(FRAME_BYTES, |k.bytes| - End(k, s0, n))
  {
  }

  /** Frame `n`: its number modulo 256 and its share of the bytes. */
  function Chunk(k: Job, s0: nat, n: nat): Message
    requires n > 0
  {
    EndsGrow(k, s0, n - 1);
    Data(n % 256, k.bytes[End(k, s0, n - 1)..End(k, s0, n)])
  }

  /** Frame `n` is the last exactly when `n` is `s0` plus the number of frames. */
  lemma EndIsTotal(k: Job, s0: nat, n: nat)
    requires s0 <= n <= s0 + Total(k)
    ensures End(k, s0, n) == |k.bytes| <==> n == s0 + Total(k)
    ensures Frames(|k.bytes| - End(k, s0, n)) == Total(k) - (n - s0)
  {
  }

  lemma EndAfter(k: Job, s0: nat, n: nat, j: nat)
    requires s0 <= n <= s0 + Total(k)
    ensures PosAfter(End(k, s0, n), j, |k.bytes|) == End(k, s0, n + j)
  {
    EndIsTotal(k, s0, n);
  }

  /** What is known of the start: the sender's number is the receiver's, and the last ACK heard cannot be
      mistaken for one of this write. */
  predicate Aligned(s: byte, a: byte, r: Endpoint) {
    && r.state.Open? && r.remoteSeq == s
    && (a == s || (a != 255 && Ahead(s, a) >= BURST))
  }

  /** A frame of this write, or one that an earlier write has left on the link. */
  predicate OnLink(k: Job, s0: nat, t: Tagged) {
    t.index > 0 &&
    if t.index <= s0 then t.msg.Data? && t.msg.seqNo == t.index % 256 else t.msg == Chunk(k, s0, t.index)
  }

  predicate WriterInv(k: Job, x: Net, s0: nat) {
    && x.w.seqNo == x.base % 256
    && (x.w.result.None? ==>
        && x.base < s0 + Total(k) && x.w.initial == End(k, s0, x.base) < |k.bytes|
        && x.w.sent <= x.w.toSend == Min(Total(k) - (x.base - s0), BURST)
        && x.w == AfterFrames(x.w, x.w.sent, |k.bytes|))
    && (x.w.result == Some(|k.bytes|) ==> x.heard == x.taken == s0 + Total(k) && x.base + 1 == x.taken + k.extra)
  }

  predicate OrderInv(k: Job, x: Net, s0: nat) {
    s0 <= x.base <= x.heard <= x.taken <= x.base + BURST && x.taken <= s0 + Total(k)
  }

  predicate ReceiverInv(k: Job, x: Net, s0: nat, ring: seq<byte>) {
    && x.r.state.Open? && x.r.remoteSeq == x.taken % 256
    && x.r.ring == ring + k.bytes[..End(k, s0, x.taken)]
    && (k.role.AsServer? || x.taken <= 255)
  }

  predicate ForwardInv(k: Job, x: Net, s0: nat) {
    && (forall p | 0 <= p < |x.fwd| :: var t := x.fwd[p];
          && OnLink(k, s0, t) && t.index <= x.base + BURST && t.index <= s0 + Total(k) && x.taken <= t.index + 3)
    && (forall p, q | 0 <= p < q < |x.fwd| :: x.fwd[p].index <= x.fwd[q].index + 3)
  }

  predicate BackInv(x: Net) {
    && (forall p | 0 <= p < |x.back| :: var t := x.back[p];
          x.heard <= t.index <= x.taken && t.msg == Ack(t.index % 256))
    && (forall p, q | 0 <= p < q < |x.back| :: x.back[p].index <= x.back[q].index)
  }

  predicate AckInv(x: Net, s0: nat, a: byte) {
    x.lastAck == x.heard % 256 || (x.heard == x.base == s0 && x.lastAck == a && a != 255 && Ahead(s0 % 256, a) >= BURST)
  }

  predicate Inv(k: Job, x: Net, s0: nat, a: byte, ring: seq<byte>) {
    && k.bytes != [] && WriterInv(k, x, s0) && OrderInv(k, x, s0) && ReceiverInv(k, x, s0, ring)
    && ForwardInv(k, x, s0) && BackInv(x) && AckInv(x, s0, a)
  }

  lemma InvStart(k: Job, s: byte, a: byte, r: Endpoint)
    requires k.bytes != [] && Aligned(s, a, r)
    ensures Inv(k, Entered(k, s, a, r), s, a, r.ring)
  {
    var w := Writing.Start(s, |k.bytes|);
    BurstStartForm(w, |k.bytes|);
    assert k.bytes[..0] == [];
  }

  lemma WriterSends(k: Job, x: Net, s0: nat)
    requires WriterInv(k, x, s0) && x.w.result.None? && x.w.sent < x.w.toSend && s0 <= x.base
    ensures x.w.pos <= |k.bytes| && SendFrame(x.w, |k.bytes|) == AfterFrames(x.w, x.w.sent + 1, |k.bytes|)
    ensures FrameOf(x.w, k.bytes) == Chunk(k, s0, x.base + x.w.sent + 1)
  {
    RoomForFrames(k, s0, x.base, x.w.sent);
    FrameForm(x.w, x.w.sent, |k.bytes|);
    FrameSent(x.w, x.w.sent, k.bytes);
    FrameIsChunk(k, x.w, s0, x.base, x.w.sent);
  }

  lemma FrameIsChunk(k: Job, w: Writer, s0: nat, base: nat, j: nat)
    requires s0 <= base && base + j < s0 + Total(k) && w.seqNo == base % 256 && w.initial == End(k, s0, base)
    ensures w.initial + FRAME_BYTES * j <= |k.bytes| && BurstFrame(w, j, k.bytes) == Chunk(k, s0, base + j + 1)
  {
    RoomForFrames(k, s0, base, j);
    EndAfter(k, s0, base, j);
    EndAfter(k, s0, base, j + 1);
    EndsGrow(k, s0, base + j);
    PlusWraps(base, j + 1);
  }

  lemma RoomForFrames(k: Job, s0: nat, base: nat, sent: nat)
    requires s0 <= base && base + sent < s0 + Total(k)
    ensures End(k, s0, base) + FRAME_BYTES * sent < |k.bytes|
  {
    EndIsTotal(k, s0, base);
  }

  lemma PlusWraps(n: nat, d: nat)
    ensures Plus(n % 256, d) == (n + d) % 256
  {
  }

  lemma SendForm(k: Job, x: Net, s0: nat)
    requires WriterInv(k, x, s0) && s0 <= x.base
    ensures var y, n := Apply(k, x, SendNext), x.base + x.w.sent + 1;
      || y == x
      || (x.base < n <= x.base + BURST && n <= s0 + Total(k) && WriterInv(k, y, s0)
          && y == x.(w := y.w, fwd := x.fwd + [Tagged(n, Chunk(k, s0, n))]))
  {
    if Apply(k, x, SendNext) != x {
      WriterSends(k, x, s0);
      AfterFramesAgain(x.w, x.w.sent + 1, |k.bytes|);
    }
  }

  lemma InvSent(k: Job, x: Net, y: Net, s0: nat, a: byte, ring: seq<byte>, n: nat)
    requires Inv(k, x, s0, a, ring) && x.base < n <= x.base + BURST && n <= s0 + Total(k)
    requires WriterInv(k, y, s0) && y == x.(w := y.w, fwd := x.fwd + [Tagged(n, Chunk(k, s0, n))])
    ensures Inv(k, y, s0, a, ring)
  {
    assert ForwardInv(k, y, s0);
  }

  lemma InvSend(k: Job, x: Net, s0: nat, a: byte, ring: seq<byte>)
    requires Inv(k, x, s0, a, ring)
    ensures Inv(k, Apply(k, x, SendNext), s0, a, ring)
  {
    var y := Apply(k, x, SendNext);
    SendForm(k, x, s0);
    if y != x {
      InvSent(k, x, y, s0, a, ring, x.base + x.w.sent + 1);
    }
  }

  lemma InvLoseData(k: Job, x: Net, s0: nat, a: byte, ring: seq<byte>, i: nat)
    requires Inv(k, x, s0, a, ring)
    ensures Inv(k, Apply(k, x, LoseData(i)), s0, a, ring)
  {
    assert ForwardInv(k, Apply(k, x, LoseData(i)), s0);
  }

  lemma InvLoseAck(k: Job, x: Net, s0: nat, a: byte, ring: seq<byte>, i: nat)
    requires Inv(k, x, s0, a, ring)
    ensures Inv(k, Apply(k, x, LoseAck(i)), s0, a, ring)
  {
    assert BackInv(Apply(k, x, LoseAck(i)));
  }

  lemma InvHear(k: Job, x: Net, s0: nat, a: byte, ring: seq<byte>)
    requires Inv(k, x, s0, a, ring)
    ensures Inv(k, Apply(k, x, DeliverAck), s0, a, ring)
  {
  }

  /** What the receiver has taken once `t` has been delivered: the next frame is taken, but a client takes
      none behind 255. */
  function TakenAfter(k: Job, taken: nat, t: Tagged): nat {
    if t.index == taken + 1 && (k.role.AsServer? || taken < 255) then taken + 1 else taken
  }

  /** The receiver takes exactly the frame behind the last one it took, unwrapping its number. */
  lemma ReceiverTakes(k: Job, x: Net, s0: nat, ring: seq<byte>, t: Tagged)
    requires ReceiverInv(k, x, s0, ring) && s0 <= x.taken
    requires OnLink(k, s0, t) && t.index <= s0 + Total(k)
    requires x.taken <= t.index + 3 && t.index <= x.taken + BURST
    ensures var act, now := Takes(k.role, x.r, t.msg), TakenAfter(k, x.taken, t);
      && act.ep.state.Open? && act.ep.remoteSeq == now % 256 && act.out == [Ack(now % 256)]
      && (act.ep.remoteSeq != x.r.remoteSeq <==> now != x.taken)
      && act.ep.ring == ring + k.bytes[..End(k, s0, now)]
  {
    EndsGrow(k, s0, t.index - 1);
    NumbersMatch(x.taken, t.index);
    var from, to := End(k, s0, t.index - 1), End(k, s0, t.index);
    if t.index == x.taken + 1 {
      assert ring + k.bytes[..from] + k.bytes[from..to] == ring + k.bytes[..to];
    }
  }

  lemma NumbersMatch(taken: nat, index: nat)
    requires taken <= index + 3 && index <= taken + 4
    ensures index % 256 == Next(taken % 256) <==> index == taken + 1
    ensures (taken + 1) % 256 == Next(taken % 256) != taken % 256
    ensures taken <= 255 ==> (IntSuccessor(index % 256, taken % 256) <==> index == taken + 1 && taken < 255)
  {
  }

  lemma ForwardAfter(k: Job, x: Net, s0: nat)
    requires ForwardInv(k, x, s0) && x.fwd != []
    ensures ForwardInv(k, x.(fwd := x.fwd[1..], taken := TakenAfter(k, x.taken, x.fwd[0])), s0)
  {
    var y := x.(fwd := x.fwd[1..], taken := TakenAfter(k, x.taken, x.fwd[0]));
    forall p | 0 <= p < |y.fwd|
      ensures y.taken <= y.fwd[p].index + 3 && y.fwd[p] == x.fwd[p + 1]
    {
      assert x.fwd[0].index <= x.fwd[p + 1].index + 3;
    }
  }

  lemma BackAfter(x: Net, now: nat)
    requires BackInv(x) && x.heard <= x.taken <= now
    ensures BackInv(x.(back := x.back + [Tagged(now, Ack(now % 256))], taken := now))
  {
  }

  lemma ReceivedForm(k: Job, x: Net, s0: nat, a: byte, ring: seq<byte>)
    requires Inv(k, x, s0, a, ring) && x.fwd != []
    ensures var y, now := Received(k, x), TakenAfter(k, x.taken, x.fwd[0]);
      && y == x.(r := y.r, fwd := x.fwd[1..], taken := now, back := x.back + [Tagged(now, Ack(now % 256))])
      && y.r.state.Open? && y.r.remoteSeq == now % 256 && y.r.ring == ring + k.bytes[..End(k, s0, now)]
  {
    var now := TakenAfter(k, x.taken, x.fwd[0]);
    ReceiverTakes(k, x, s0, ring, x.fwd[0]);
    assert Tag(now, [Ack(now % 256)]) == [Tagged(now, Ack(now % 256))];
  }

  lemma InvReceive(k: Job, x: Net, s0: nat, a: byte, ring: seq<byte>)
    requires Inv(k, x, s0, a, ring)
    ensures Inv(k, Apply(k, x, DeliverData), s0, a, ring)
  {
    if x.fwd != [] {
      var y := Received(k, x);
      ReceivedForm(k, x, s0, a, ring);
      ForwardAfter(k, x, s0);
      BackAfter(x, y.taken);
      assert BackInv(y) && ForwardInv(k, y, s0);
      assert WriterInv(k, y, s0) && OrderInv(k, y, s0);
    }
  }

  /** A wait that ends without an answer. */
  lemma InvUnanswered(k: Job, x: Net, s0: nat, a: byte, ring: seq<byte>)
    requires Inv(k, x, s0, a, ring) && x.w.result.None? && x.w.sent == x.w.toSend && Sane(x.w, |k.bytes|)
    requires x.lastAck == x.w.seqNo
    ensures Inv(k, Concluded(k, x), s0, a, ring)
  {
    var y := Concluded(k, x);
    EndIsTotal(k, s0, x.base);
    if y.w.result.None? {
      BurstStartForm(y.w, |k.bytes|);
    }
  }

  lemma AheadInWindow(base: nat, heard: nat)
    requires base <= heard <= base + BURST
    ensures heard % 256 == base % 256 <==> heard == base
    ensures heard > base ==> Ahead(base % 256, heard % 256) == heard - base - 1
  {
  }

  lemma BurstBehind(k: Job, x: Net, s0: nat)
    requires WriterInv(k, x, s0) && s0 <= x.base && x.w.result.None? && x.w.sent == x.w.toSend
    ensures var w := Begin(x.w.(pos := x.w.initial), |k.bytes|);
      AtBurstStart(w, |k.bytes|) && w.toSend == x.w.toSend && AfterFrames(w, w.toSend, |k.bytes|) == x.w
  {
    EndIsTotal(k, s0, x.base);
  }

  /** The end of a wait with an ACK that is neither the sender's number nor the sentinel's. */
  lemma AnswerForm(k: Job, x: Net, s0: nat)
    requires WriterInv(k, x, s0) && s0 <= x.base && x.w.result.None? && x.w.sent == x.w.toSend && Sane(x.w, |k.bytes|)
    requires x.lastAck != x.w.seqNo && !SentinelHit(x.w, x.lastAck)
    ensures var y, d := Concluded(k, x), Ahead(x.w.seqNo, x.lastAck);
      if d < x.w.toSend then
        && y.answered && y.base == x.base + d + k.extra && y.w.seqNo == Plus(x.w.seqNo, d + k.extra)
        && y.w.pos == PosAfter(x.w.initial, d + 1, |k.bytes|)
        && (y.w.pos == |k.bytes| ==> y.w.result == Some(|k.bytes|))
        && (y.w.pos != |k.bytes| ==> y.w.result.None? && y.w == Begin(y.w, |k.bytes|) && y.w.initial == y.w.pos)
      else y.w.result == Some(ACK_OUT_OF_SEQUENCE) && y.base == x.base && y.w.seqNo == x.w.seqNo
  {
    BurstBehind(k, x, s0);
    ConcludeMatch(Begin(x.w.(pos := x.w.initial), |k.bytes|), x.lastAck, k.extra, |k.bytes|);
  }

  /** The number heard, and what is ahead of the sender's. */
  lemma HeardAhead(k: Job, x: Net, s0: nat, a: byte)
    requires AckInv(x, s0, a) && OrderInv(k, x, s0) && WriterInv(k, x, s0) && x.lastAck != x.w.seqNo && x.w.result.None?
    ensures if x.lastAck == x.heard % 256 then
        x.base < x.heard <= x.base + x.w.toSend && Ahead(x.w.seqNo, x.lastAck) == x.heard - x.base - 1
      else Ahead(x.w.seqNo, x.lastAck) >= BURST
  {
    if x.lastAck == x.heard % 256 {
      AheadInWindow(x.base, x.heard);
    }
  }

  /** What an answer means: the number heard is that of a frame of this burst which the receiver has
      taken, and the sender goes on behind that frame, though with a number that lags by one if `extra`
      is 0; or it is not an answer, and write fails. */
  lemma AnswerMeans(k: Job, x: Net, s0: nat, a: byte, ring: seq<byte>)
    requires Inv(k, x, s0, a, ring) && x.w.result.None? && x.w.sent == x.w.toSend && Sane(x.w, |k.bytes|)
    requires x.lastAck != x.w.seqNo && !SentinelHit(x.w, x.lastAck)
    ensures var y := Concluded(k, x);
      if x.lastAck == x.heard % 256 then
        && x.base < x.heard <= x.taken && y.answered
        && y.base == x.heard - 1 + k.extra && y.w.seqNo == y.base % 256
        && y.w.pos == End(k, s0, x.heard)
        && (y.w.pos == |k.bytes| ==> y.w.result == Some(|k.bytes|) && x.heard == s0 + Total(k))
        && (y.w.pos != |k.bytes| ==> y.w.result.None? && y.w == Begin(y.w, |k.bytes|) && y.w.initial == y.w.pos)
      else y.w.result == Some(ACK_OUT_OF_SEQUENCE) && y.base == x.base && y.w.seqNo == x.w.seqNo
  {
    AnswerForm(k, x, s0);
    HeardAhead(k, x, s0, a);
    if x.lastAck == x.heard % 256 {
      EndAfter(k, s0, x.base, x.heard - x.base);
      EndIsTotal(k, s0, x.heard);
      PlusWraps(x.base, x.heard - x.base - 1 + k.extra);
    }
  }

  lemma InvAnswered(k: Job, x: Net, s0: nat, a: byte, ring: seq<byte>)
    requires Inv(k, x, s0, a, ring) && x.w.result.None? && x.w.sent == x.w.toSend && Sane(x.w, |k.bytes|)
    requires x.lastAck != x.w.seqNo && !SentinelHit(x.w, x.lastAck) && k.extra <= 1
    ensures var y := Concluded(k, x); Exempt(k, y) || Inv(k, y, s0, a, ring)
  {
    var y := Concluded(k, x);
    AnswerMeans(k, x, s0, a, ring);
    if !Exempt(k, y) {
      AnsweredWriter(k, x, s0, a, ring);
      assert ForwardInv(k, y, s0) && BackInv(y) && ReceiverInv(k, y, s0, ring);
      assert OrderInv(k, y, s0);
    }
  }

  lemma AnsweredWriter(k: Job, x: Net, s0: nat, a: byte, ring: seq<byte>)
    requires Inv(k, x, s0, a, ring) && x.w.result.None? && x.w.sent == x.w.toSend && Sane(x.w, |k.bytes|)
    requires x.lastAck != x.w.seqNo && !SentinelHit(x.w, x.lastAck) && k.extra <= 1 && !Exempt(k, Concluded(k, x))
    ensures WriterInv(k, Concluded(k, x), s0)
  {
    var y := Concluded(k, x);
    AnswerMeans(k, x, s0, a, ring);
    if y.w.result.None? {
      AtNextBurst(k, y, s0, x.heard);
    }
  }

  lemma AtNextBurst(k: Job, y: Net, s0: nat, n: nat)
    requires y.w.initial == y.w.pos == End(k, s0, n) < |k.bytes| && y.w.result.None? && y.w == Begin(y.w, |k.bytes|)
    requires s0 <= y.base == n <= s0 + Total(k) && y.w.seqNo == y.base % 256
    ensures WriterInv(k, y, s0)
  {
    EndIsTotal(k, s0, n);
    BurstStartForm(y.w, |k.bytes|);
  }

  /** The invariant can only break by an unused slot, or by an answer to the source's sender in a write
      of several frames. */
  predicate Exempt(k: Job, x: Net) {
    x.hit || (x.answered && k.extra == 0 && Total(k) > 1)
  }

  lemma InvStep(k: Job, x: Net, s0: nat, a: byte, ring: seq<byte>, step: Step)
    requires Inv(k, x, s0, a, ring) && !Exempt(k, x) && k.extra <= 1
    ensures var y := Apply(k, x, step); Exempt(k, y) || Inv(k, y, s0, a, ring)
  {
    match step
    case SendNext => InvSend(k, x, s0, a, ring);
    case LoseData(i) => InvLoseData(k, x, s0, a, ring, i);
    case DeliverData => InvReceive(k, x, s0, a, ring);
    case LoseAck(i) => InvLoseAck(k, x, s0, a, ring, i);
    case DeliverAck => InvHear(k, x, s0, a, ring);
    case EndWait =>
      var y := Apply(k, x, step);
      if y != x && !y.hit {
        if x.lastAck == x.w.seqNo {
          InvUnanswered(k, x, s0, a, ring);
        } else {
          InvAnswered(k, x, s0, a, ring);
        }
      }
  }

  lemma {:induction false} InvRun(k: Job, s: byte, a: byte, r: Endpoint, steps: seq<Step>)
    requires k.bytes != [] && Aligned(s, a, r) && k.extra <= 1
    ensures var y := Run(k, Entered(k, s, a, r), steps); Exempt(k, y) || Inv(k, y, s, a, r.ring)
  {
    if steps == [] {
      InvStart(k, s, a, r);
    } else {
      var x, step := Run(k, Entered(k, s, a, r), steps[..|steps| - 1]), steps[|steps| - 1];
      InvRun(k, s, a, r, steps[..|steps| - 1]);
      if Exempt(k, x) {
        assert Exempt(k, Apply(k, x, step));
      } else {
        InvStep(k, x, s, a, r.ring, step);
      }
    }
  }
}
