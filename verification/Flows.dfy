/** One burst over links that lose nothing: where its frames and their ACKs are at any time. */
module Flows {
  import opened Bytes
  import opened Endpoints
  import opened Links
  import opened Writing
  import opened Transfer

  /** A burst and what it makes of the receiver: the frames, and the number recorded and the bytes appended
      after each number of them. */
  datatype Script = Script(frames: seq<Message>, numbers: seq<byte>, rings: seq<seq<byte>>)
  {
    /** The receiver follows the first `n` frames. */
    predicate Followed(role: Role, n: nat) {
      && |numbers| == |rings| == |frames| + 1 && n <= |frames|
      && forall i | 0 <= i < n :: Leads(role, frames[i], numbers[i], rings[i], numbers[i + 1], rings[i + 1])
    }
  }

  /** What frame `m` makes of an open receiver that has recorded `n` and appended `ring`. */
  predicate Leads(role: Role, m: Message, n: byte, ring: seq<byte>, n': byte, ring': seq<byte>) {
    && m.Data?
    && if m.seqNo == Next(n) then (role.AsServer? || n < 255) && n' == Next(n) && ring' == ring + m.bytes
       else n' == n && ring' == ring
  }

  /** Of the script's frames `j` have been sent and `i` delivered, and the ACKs of `h` have been heard; before
      them the last ACK heard was `a`. */
  predicate Flowing(sc: Script, a: byte, h: nat, i: nat, j: nat, x: Net) {
    && h <= i <= j <= |sc.frames| && |sc.numbers| == |sc.rings| == |sc.frames| + 1
    && |x.fwd| == j - i && (forall p | 0 <= p < |x.fwd| :: x.fwd[p].msg == sc.frames[i + p])
    && |x.back| == i - h && (forall p | 0 <= p < |x.back| :: x.back[p].msg == Ack(sc.numbers[h + p + 1]))
    && x.r.state.Open? && x.r.remoteSeq == sc.numbers[i] && x.r.ring == sc.rings[i]
    && x.lastAck == if h == 0 then a else sc.numbers[h]
  }

  lemma FlowSends(sc: Script, a: byte, h: nat, i: nat, j: nat, x: Net, w: Writer, t: Tagged)
    requires Flowing(sc, a, h, i, j, x) && j < |sc.frames| && t.msg == sc.frames[j]
    ensures Flowing(sc, a, h, i, j + 1, x.(w := w, fwd := x.fwd + [t]))
  {
  }

  /** One frame is delivered, accepted or not. */
  lemma DeliverOne(k: Job, x: Net, n': byte, ring': seq<byte>)
    requires x.fwd != [] && x.r.state.Open? && Leads(k.role, x.fwd[0].msg, x.r.remoteSeq, x.r.ring, n', ring')
    ensures var y := Apply(k, x, DeliverData);
      && y == x.(r := x.r.(remoteSeq := n', ring := ring'), fwd := x.fwd[1..], taken := y.taken, back := y.back)
      && |y.back| == |x.back| + 1 && y.back[..|x.back|] == x.back && y.back[|x.back|].msg == Ack(n')
  {
  }

  lemma FlowDelivers(k: Job, sc: Script, a: byte, h: nat, i: nat, j: nat, x: Net)
    requires sc.Followed(k.role, i + 1) && Flowing(sc, a, h, i, j, x) && i < j
    ensures var y := Apply(k, x, DeliverData);
      Flowing(sc, a, h, i + 1, j, y) && y == x.(r := y.r, fwd := y.fwd, taken := y.taken, back := y.back)
  {
    assert x.fwd[0].msg == sc.frames[i];
    DeliverOne(k, x, sc.numbers[i + 1], sc.rings[i + 1]);
  }

  lemma FlowHears(k: Job, sc: Script, a: byte, h: nat, i: nat, j: nat, x: Net)
    requires Flowing(sc, a, h, i, j, x) && h < i
    ensures var y := Apply(k, x, DeliverAck);
      Flowing(sc, a, h + 1, i, j, y) && y == x.(back := y.back, lastAck := y.lastAck, heard := y.heard)
  {
    assert x.back[0].msg == Ack(sc.numbers[h + 1]);
  }

  function Max(a: nat, b: nat): nat {
    if a < b then b else a
  }

  /** What of the first `i` frames of the burst `b` is taken: all but the first `lag`. */
  function Taken(bytes: seq<byte>, b: Writer, lag: nat, i: nat): seq<byte> {
    bytes[PosAfter(b.initial, lag, |bytes|)..PosAfter(b.initial, Max(i, lag), |bytes|)]
  }

  /** The burst `b`, when the receiver is `lag` numbers ahead of the sender and has appended `ring`. */
  function ScriptOf(bytes: seq<byte>, b: Writer, lag: nat, ring: seq<byte>): (sc: Script)
    requires b.initial <= |bytes|
    ensures |sc.frames| == b.toSend && |sc.numbers| == |sc.rings| == b.toSend + 1
  {
    Script(seq(b.toSend, i requires 0 <= i < b.toSend => BurstFrame(b, i, bytes)),
           seq(b.toSend + 1, i requires 0 <= i <= b.toSend => Plus(b.seqNo, Max(i, lag))),
           seq(b.toSend + 1, i requires 0 <= i <= b.toSend => ring + Taken(bytes, b, lag, i)))
  }

  lemma FrameMeets(b: Writer, lag: nat, i: nat)
    requires i < BURST && lag <= 1
    ensures var n, now := Plus(b.seqNo, i + 1), Plus(b.seqNo, Max(i, lag));
      (n == Next(now) <==> i >= lag) && Plus(b.seqNo, Max(i + 1, lag)) == if i >= lag then Next(now) else now
  {
    PlusTwice(b.seqNo, Max(i, lag), 1);
    PlusDiffers(b.seqNo, 1);
  }

  lemma TakenGrows(bytes: seq<byte>, b: Writer, lag: nat, i: nat, ring: seq<byte>)
    requires b.initial <= |bytes|
    ensures ring + Taken(bytes, b, lag, i + 1) ==
      if i >= lag then ring + Taken(bytes, b, lag, i) + BurstFrame(b, i, bytes).bytes
      else ring + Taken(bytes, b, lag, i)
  {
    if i >= lag {
      assert Taken(bytes, b, lag, i + 1) == Taken(bytes, b, lag, i) + BurstFrame(b, i, bytes).bytes;
    }
  }

  lemma ScriptValues(bytes: seq<byte>, b: Writer, lag: nat, ring: seq<byte>, i: nat)
    requires b.initial <= |bytes| && i <= b.toSend
    ensures var sc := ScriptOf(bytes, b, lag, ring);
      && sc.numbers[i] == Plus(b.seqNo, Max(i, lag)) && sc.rings[i] == ring + Taken(bytes, b, lag, i)
      && (i < b.toSend ==> sc.frames[i] == BurstFrame(b, i, bytes))
  {
  }

  lemma FrameLeads(role: Role, bytes: seq<byte>, b: Writer, lag: nat, ring: seq<byte>, i: nat)
    requires b.initial <= |bytes| && i < b.toSend <= BURST && lag <= 1 && (role.AsServer? || b.seqNo + i < 255)
    ensures Leads(role, BurstFrame(b, i, bytes), Plus(b.seqNo, Max(i, lag)), ring + Taken(bytes, b, lag, i),
                  Plus(b.seqNo, Max(i + 1, lag)), ring + Taken(bytes, b, lag, i + 1))
  {
    FrameMeets(b, lag, i);
    TakenGrows(bytes, b, lag, i, ring);
  }

  /** A server follows every burst; a client follows as far as the numbers do not pass 255. */
  lemma ScriptIsFollowed(role: Role, bytes: seq<byte>, b: Writer, lag: nat, ring: seq<byte>, n: nat)
    requires b.initial <= |bytes| && n <= b.toSend <= BURST && lag <= 1 && (role.AsServer? || b.seqNo + n <= 255)
    ensures ScriptOf(bytes, b, lag, ring).Followed(role, n)
  {
    forall i | 0 <= i < n
      ensures var sc := ScriptOf(bytes, b, lag, ring);
        Leads(role, sc.frames[i], sc.numbers[i], sc.rings[i], sc.numbers[i + 1], sc.rings[i + 1])
    {
      ScriptValues(bytes, b, lag, ring, i);
      ScriptValues(bytes, b, lag, ring, i + 1);
      FrameLeads(role, bytes, b, lag, ring, i);
    }
  }
}
