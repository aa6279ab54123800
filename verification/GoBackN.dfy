/** What write() guarantees over lossy links with the advance repaired, and up to the first answer as the
    source has it. */
module GoBackN {
  import opened Bytes
  import opened Endpoints
  import opened Writing
  import opened Transfer
  import opened Sessions

  /** A burst of fewer than four frames holds the last of the write, so only the last three numbers can be
      mistaken for the number that unused slots carry. */
  predicate Clear(k: Job, s: byte) {
    forall n | s < n <= s + Total(k) < n + 3 :: n % 256 != 255
  }

  lemma NoSentinelStep(k: Job, x: Net, s: byte, a: byte)
    requires WriterInv(k, x, s) && OrderInv(k, x, s) && AckInv(x, s, a) && Clear(k, s) && (a == s || a != 255)
    requires x.w.result.None?
    ensures !SentinelHit(x.w, x.lastAck)
  {
    if x.lastAck == 255 && x.lastAck == x.heard % 256 && x.w.toSend < BURST {
      assert s < x.heard <= s + Total(k) < x.heard + 3 || x.heard == x.base;
    }
  }

  lemma NoHitStep(k: Job, x: Net, s: byte, a: byte, step: Step)
    requires WriterInv(k, x, s) && OrderInv(k, x, s) && AckInv(x, s, a) && Clear(k, s) && (a == s || a != 255)
    requires !x.hit
    ensures !Apply(k, x, step).hit
  {
    if step.EndWait? && x.w.result.None? {
      NoSentinelStep(k, x, s, a);
    }
  }

  lemma {:induction false} NeverHit(k: Job, s: byte, a: byte, r: Endpoint, steps: seq<Step>)
    requires k.bytes != [] && k.extra == 1 && Aligned(s, a, r) && Clear(k, s)
    ensures !Run(k, Entered(k, s, a, r), steps).hit
  {
    if steps != [] {
      var n := |steps| - 1;
      NeverHit(k, s, a, r, steps[..n]);
      InvRun(k, s, a, r, steps[..n]);
      NoHitStep(k, Run(k, Entered(k, s, a, r), steps[..n]), s, a, steps[n]);
    }
  }

  /** A receiver that began with `ring` has appended a prefix of the bytes, frame after frame, and all of
      them if write has returned their number. */
  predicate Delivering(k: Job, s0: nat, ring: seq<byte>, x: Net) {
    && s0 <= x.taken && x.r.ring == ring + k.bytes[..End(k, s0, x.taken)]
    && (x.w.result == Some(|k.bytes|) ==> x.r.ring == ring + k.bytes)
  }

  lemma InvMeans(k: Job, x: Net, s0: nat, a: byte, ring: seq<byte>)
    requires Inv(k, x, s0, a, ring)
    ensures Delivering(k, s0, ring, x)
  {
    EndIsTotal(k, s0, x.taken);
    assert k.bytes[..|k.bytes|] == k.bytes;
  }

  /** Go-back-N safety of the repaired sender, which adds `i + 1` instead of `i`: from an aligned start,
      whatever is sent, lost, delivered and timed out, the receiver has always appended a prefix of the
      bytes, and when write returns their number, it has appended all of them; unless an ACK of 255 has
      matched an unused slot, which it cannot when none of the last three numbers is 255. */
  lemma RepairedSenderDelivers(k: Job, s: byte, a: byte, r: Endpoint, steps: seq<Step>)
    requires k.bytes != [] && k.extra == 1 && Aligned(s, a, r)
    ensures var x := Run(k, Entered(k, s, a, r), steps);
      (Clear(k, s) ==> !x.hit) && (!x.hit ==> Delivering(k, s, r.ring, x))
  {
    if Clear(k, s) {
      NeverHit(k, s, a, r, steps);
    }
    InvRun(k, s, a, r, steps);
    var x := Run(k, Entered(k, s, a, r), steps);
    if !x.hit {
      InvMeans(k, x, s, a, r.ring);
    }
  }

  /** An ACK of 255 has matched an unused slot, or write was called again after it had failed. */
  predicate Spoilt(e: Session) {
    e.x.hit || e.failed
  }

  lemma NextBegins(e: Session, a: byte, ring: seq<byte>, bytes: seq<byte>)
    requires Inv(e.k, e.x, e.begun, a, ring + e.written) && e.k.extra == 1
    ensures var f := Proceed(e, NewWrite(bytes)); Spoilt(f) || Inv(f.k, f.x, f.begun, a, ring + f.written)
  {
    var f := Proceed(e, NewWrite(bytes));
    if f != e && !Spoilt(f) {
      EndIsTotal(e.k, e.begun, e.x.taken);
      BurstStartForm(f.x.w, |bytes|);
      assert f.x.r.ring == ring + e.written + e.k.bytes;
      assert ring + f.written == ring + e.written + e.k.bytes;
      assert ring + f.written + bytes[..0] == ring + f.written;
      assert ForwardInv(f.k, f.x, f.begun) && BackInv(f.x);
    }
  }

  /** What holds in all sessions. */
  predicate Safe(e: Session, a: byte, ring: seq<byte>) {
    e.k.extra == 1 && (Spoilt(e) || Inv(e.k, e.x, e.begun, a, ring + e.written))
  }

  lemma SafeStart(k: Job, s: byte, a: byte, r: Endpoint)
    requires k.bytes != [] && k.extra == 1 && Aligned(s, a, r)
    ensures Safe(Opening(k, s, a, r), a, r.ring)
  {
    InvStart(k, s, a, r);
    assert r.ring + [] == r.ring;
  }

  lemma SafeMove(e: Session, a: byte, ring: seq<byte>, m: Move)
    requires Safe(e, a, ring)
    ensures Safe(Proceed(e, m), a, ring)
  {
    if !Spoilt(e) {
      match m
      case Inner(step) => InvStep(e.k, e.x, e.begun, a, ring + e.written, step);
      case NewWrite(bytes) => NextBegins(e, a, ring, bytes);
    }
  }

  lemma {:induction false} SafeRun(k: Job, s: byte, a: byte, r: Endpoint, ms: seq<Move>)
    requires k.bytes != [] && k.extra == 1 && Aligned(s, a, r)
    ensures Safe(ProceedAll(Opening(k, s, a, r), ms), a, r.ring)
  {
    if ms == [] {
      SafeStart(k, s, a, r);
    } else {
      SafeRun(k, s, a, r, ms[..|ms| - 1]);
      SafeMove(ProceedAll(Opening(k, s, a, r), ms[..|ms| - 1]), a, r.ring, ms[|ms| - 1]);
    }
  }

  /** A receiver that began with `ring` has the bytes of all earlier writes and is taking those of the one
      under way. */
  predicate InGoodOrder(e: Session, ring: seq<byte>) {
    Delivering(e.k, e.begun, ring + e.written, e.x)
  }

  /** The repaired sender over any number of writes, with frames and ACKs of earlier ones still under way:
      as long as each write is called after the one before has returned its length, all bytes arrive in
      good order. */
  lemma RepairedWritesDeliver(k: Job, s: byte, a: byte, r: Endpoint, ms: seq<Move>)
    requires k.bytes != [] && k.extra == 1 && Aligned(s, a, r)
    ensures var e := ProceedAll(Opening(k, s, a, r), ms); !Spoilt(e) ==> InGoodOrder(e, r.ring)
  {
    SafeRun(k, s, a, r, ms);
    var e := ProceedAll(Opening(k, s, a, r), ms);
    if !Spoilt(e) {
      InvMeans(e.k, e.x, e.begun, a, r.ring + e.written);
    }
  }

  /** The sender waits, and the ACK it has is neither its own number nor the sentinel's. */
  predicate HasAnswer(x: Net) {
    && x.w.result.None? && x.w.sent == x.w.toSend && !x.hit
    && x.lastAck != x.w.seqNo && !SentinelHit(x.w, x.lastAck)
  }

  /** From `x` the wait ends in `y`: write fails, or everything before the position that it goes on from has
      been appended in order, and its number is the acknowledged one minus 1. */
  predicate GoesOnSafely(k: Job, s: byte, ring: seq<byte>, x: Net, y: Net) {
    && y.r.ring == ring + k.bytes[..End(k, s, x.taken)]
    && if y.w.result == Some(ACK_OUT_OF_SEQUENCE) then y.w.seqNo == x.w.seqNo
       else y.w.pos <= End(k, s, x.taken) && x.lastAck == Next(y.w.seqNo)
  }

  lemma AnswerIsSafe(k: Job, x: Net, s: byte, a: byte, ring: seq<byte>)
    requires Inv(k, x, s, a, ring) && HasAnswer(x) && Sane(x.w, |k.bytes|) && k.extra == 0
    ensures GoesOnSafely(k, s, ring, x, Apply(k, x, EndWait))
  {
    AnswerMeans(k, x, s, a, ring);
    if x.lastAck == x.heard % 256 {
      EndsUpTo(k, s, x.heard, x.taken);
      PlusWraps(x.heard - 1, 1);
    }
  }

  /** The source's sender, up to and including the first answered wait. */
  lemma FirstAnswerIsSafe(k: Job, s: byte, a: byte, r: Endpoint, steps: seq<Step>)
    requires k.bytes != [] && k.extra == 0 && Aligned(s, a, r)
    requires var x := Run(k, Entered(k, s, a, r), steps); !x.answered && HasAnswer(x)
    ensures var x := Run(k, Entered(k, s, a, r), steps); GoesOnSafely(k, s, r.ring, x, Apply(k, x, EndWait))
  {
    InvRun(k, s, a, r, steps);
    PositionsInRange(k, s, a, r, steps);
    AnswerIsSafe(k, Run(k, Entered(k, s, a, r), steps), s, a, r.ring);
  }

  lemma {:induction false} EndsUpTo(k: Job, s0: nat, m: nat, n: nat)
    requires m <= n
    ensures End(k, s0, m) <= End(k, s0, n)
    decreases n
  {
    if m < n {
      EndsUpTo(k, s0, m, n - 1);
      EndsGrow(k, s0, n - 1);
    }
  }
}
