/** write() over links that lose nothing, with waits that end on the ACK of the last frame: what arrives then,
    and a run in which it does. */
module Lossless {
  import opened Bytes
  import opened Endpoints
  import opened Writing
  import opened Transfer
  import opened Flows
  import opened Runs

  /** Every burst of `frames` frames behind `n` can end with the ACK of its last frame: a client can take
      that frame, and its ACK is not mistaken for one of unused slots. */
  predicate Concludes(role: Role, n: byte, frames: nat, extra: nat)
    decreases frames
  {
    var j := Min(frames, BURST);
    && (role.AsServer? || n + j <= 255) && (Plus(n, j) != 255 || j == BURST)
    && (frames <= BURST || Concludes(role, Plus(n, 3 + extra), frames - BURST, extra))
  }

  /** What arrives of the bytes from `pos` on: the first burst loses its first `lag` frames, and every later
      one its first `later` ones. */
  function Skipping(bytes: seq<byte>, pos: nat, lag: nat, later: nat): (rest: seq<byte>)
    requires pos <= |bytes|
    ensures |rest| <= |bytes| - pos && (lag > 0 && pos < |bytes| ==> |rest| < |bytes| - pos)
    decreases |bytes| - pos
  {
    if pos == |bytes| then []
    else
      var next := PosAfter(pos, BURST, |bytes|);
      bytes[PosAfter(pos, lag, |bytes|)..Max(next, PosAfter(pos, lag, |bytes|))] + Skipping(bytes, next, later, later)
  }

  lemma {:induction false} SkippingNothing(bytes: seq<byte>, pos: nat)
    requires pos <= |bytes|
    ensures Skipping(bytes, pos, 0, 0) == bytes[pos..]
    decreases |bytes| - pos
  {
    if pos < |bytes| {
      var next := PosAfter(pos, BURST, |bytes|);
      SkippingNothing(bytes, next);
      assert bytes[pos..next] + bytes[next..] == bytes[pos..];
    }
  }

  /** With the source's advance all bytes arrive if and only if one burst holds them; with the repaired one
      they always do. */
  lemma SkippingForm(bytes: seq<byte>, extra: nat)
    requires bytes != [] && extra <= 1
    ensures extra == 1 ==> Skipping(bytes, 0, 0, 1 - extra) == bytes
    ensures extra == 0 ==> (Skipping(bytes, 0, 0, 1 - extra) == bytes <==> |bytes| <= BURST * FRAME_BYTES)
  {
    var next := PosAfter(0, BURST, |bytes|);
    if extra == 1 {
      SkippingNothing(bytes, 0);
      assert bytes[0..] == bytes;
    } else if next == |bytes| {
      assert Skipping(bytes, 0, 0, 1) == bytes[0..next] + [] == bytes;
    } else {
      assert |Skipping(bytes, next, 1, 1)| < |bytes| - next;
      assert |Skipping(bytes, 0, 0, 1)| < |bytes|;
    }
  }

  lemma FramesLeft(len: nat, pos: nat)
    requires pos < len
    ensures var next, f := PosAfter(pos, BURST, len), Frames(len - pos);
      && f > 0 && Frames(len - next) == (if f > BURST then f - BURST else 0) && (next == len <==> f <= BURST)
      && next == PosAfter(pos, Min(f, BURST), len)
  {
  }

  lemma SkippingStep(k: Job, b: Writer, lag: nat, later: nat, ring: seq<byte>)
    requires b.initial < |k.bytes| && b.toSend == Min(Frames(|k.bytes| - b.initial), BURST)
    ensures ring + Skipping(k.bytes, b.initial, lag, later) ==
      ring + Taken(k.bytes, b, lag, b.toSend) + Skipping(k.bytes, PosAfter(b.initial, BURST, |k.bytes|), later, later)
  {
    var rest := Skipping(k.bytes, PosAfter(b.initial, BURST, |k.bytes|), later, later);
    FramesLeft(|k.bytes|, b.initial);
    assert Skipping(k.bytes, b.initial, lag, later) == Taken(k.bytes, b, lag, b.toSend) + rest;
    assert ring + (Taken(k.bytes, b, lag, b.toSend) + rest) == ring + Taken(k.bytes, b, lag, b.toSend) + rest;
  }

  /** A burst begins in a run that has been smooth so far. */
  predicate Between(k: Job, x: Net, lag: nat) {
    && k.extra <= 1 && Waiting(k, x, lag) && !x.rough
    && Concludes(k.role, x.w.seqNo, Frames(|k.bytes| - x.w.initial), k.extra)
  }

  /** A whole burst up to the end of its wait: the final number has been heard. */
  lemma WholeBurst(k: Job, x0: Net, x: Net, lag: nat) returns (y: Net)
    requires Reaches(k, x0, x) && Between(k, x, lag)
    ensures Reaches(k, x0, y) && AnsweredAt(k, x.w, x.w.toSend, y) && !y.rough && y.fwd == [] && y.back == []
    ensures y.r == x.r.(remoteSeq := FinalSeq(x.w), ring := x.r.ring + Taken(k.bytes, x.w, lag, x.w.toSend))
  {
    var sc, n := ScriptFrom(k, x, lag), x.w.toSend;
    BurstStartForm(x.w, |k.bytes|);
    y := ReachAllSent(k, x0, x, lag);
    ScriptIsFollowed(k.role, k.bytes, x.w, lag, x.r.ring, n);
    y := ReachDelivered(k, x0, sc, x.lastAck, n, n, y);
    y := ReachAllHeard(k, x0, sc, x.lastAck, 0, n, n, y);
  }

  lemma NextBetween(k: Job, x: Net, lag: nat, z: Net)
    requires Between(k, x, lag) && BURST < Frames(|k.bytes| - x.w.initial)
    requires z.fwd == [] && z.back == [] && !z.rough && z.r.state.Open? && z.r.remoteSeq == Plus(x.w.seqNo, BURST)
    requires z.w.result.None? && AtBurstStart(z.w, |k.bytes|) && z.w.initial == PosAfter(x.w.initial, BURST, |k.bytes|)
    requires z.w.seqNo == Plus(x.w.seqNo, 3 + k.extra)
    ensures Between(k, z, 1 - k.extra)
  {
    FramesLeft(|k.bytes|, x.w.initial);
    PlusTwice(x.w.seqNo, 3 + k.extra, 1 - k.extra);
  }

  /** One burst, up to the end of its wait. */
  lemma OneTurn(k: Job, x0: Net, x: Net, lag: nat) returns (z: Net)
    requires Reaches(k, x0, x) && Between(k, x, lag)
    ensures Reaches(k, x0, z) && z.r.ring == x.r.ring + Taken(k.bytes, x.w, lag, x.w.toSend) && !z.rough
    ensures var next := PosAfter(x.w.initial, BURST, |k.bytes|);
      if next == |k.bytes| then z.w.result == Some(|k.bytes|)
      else z.w.result.None? && Between(k, z, 1 - k.extra) && z.w.initial == next
  {
    FramesLeft(|k.bytes|, x.w.initial);
    var y := WholeBurst(k, x0, x, lag);
    if PosAfter(x.w.initial, BURST, |k.bytes|) == |k.bytes| {
      z := ReachEnd(k, x0, x.w, x.w.toSend, y);
    } else {
      z := ReachAnswered(k, x0, x.w, BURST, y);
      NextBetween(k, x, lag, z);
    }
  }

  /** write goes on to the end and returns the number of all bytes. */
  lemma {:induction false} LosslessRest(k: Job, x0: Net, x: Net, lag: nat) returns (z: Net)
    requires Reaches(k, x0, x) && Between(k, x, lag)
    ensures Reaches(k, x0, z) && !z.rough && z.w.result == Some(|k.bytes|)
    ensures z.r.ring == x.r.ring + Skipping(k.bytes, x.w.initial, lag, 1 - k.extra)
    decreases |k.bytes| - x.w.initial
  {
    SkippingStep(k, x.w, lag, 1 - k.extra, x.r.ring);
    z := OneTurn(k, x0, x, lag);
    if z.w.result.None? {
      z := LosslessRest(k, x0, z, 1 - k.extra);
    }
  }

  /** A run that loses nothing and whose waits end on the ACK of the last frame returns the number of all
      bytes, if every burst can end so. */
  lemma LosslessReturns(k: Job, s: byte, a: byte, r: Endpoint) returns (z: Net)
    requires k.bytes != [] && k.extra <= 1 && Aligned(s, a, r) && Concludes(k.role, s, Total(k), k.extra)
    ensures Reaches(k, Entered(k, s, a, r), z) && !z.rough && z.w.result == Some(|k.bytes|)
    ensures z.r.ring == r.ring + Skipping(k.bytes, 0, 0, 1 - k.extra)
  {
    var x := Entered(k, s, a, r);
    ReachStart(k, x);
    z := LosslessRest(k, x, x, 0);
  }

  /** The repaired sender gets all bytes of a write of any length across. */
  lemma RepairedArrives(k: Job, s: byte, a: byte, r: Endpoint) returns (z: Net)
    requires k.bytes != [] && k.extra == 1 && Aligned(s, a, r) && Concludes(k.role, s, Total(k), 1)
    ensures Reaches(k, Entered(k, s, a, r), z) && !z.rough && z.w.result == Some(|k.bytes|)
    ensures z.r.ring == r.ring + k.bytes
  {
    z := LosslessReturns(k, s, a, r);
    SkippingForm(k.bytes, 1);
  }
}
