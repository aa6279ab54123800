/** All runs of write() as the source has it over links that lose nothing, if its waits end on the ACK of the
    last frame. */
module LosslessRuns {
  import opened Bytes
  import opened Endpoints
  import opened Links
  import opened Writing
  import opened Transfer
  import opened Flows
  import opened Runs
  import opened Lossless

  /** What is known of a burst's beginning: the sender `b`, the receiver `lag` numbers ahead of it, the last
      ACK `a`, and `ring` appended. In the end `all` is appended if the write `ends`. */
  datatype Ground = Ground(b: Writer, lag: nat, a: byte, ring: seq<byte>)

  predicate Begins(k: Job, st: Ground, all: seq<byte>, ends: bool) {
    && k.extra == 0 && st.b.result.None? && AtBurstStart(st.b, |k.bytes|) && 1 <= st.b.toSend <= BURST && st.lag <= 1
    && (if st.lag == 1 then st.a == Plus(st.b.seqNo, 1) else st.a == st.b.seqNo || Ahead(st.b.seqNo, st.a) >= BURST)
    && st.ring + Skipping(k.bytes, st.b.initial, st.lag, 1) == all
    && ends == Concludes(k.role, st.b.seqNo, Frames(|k.bytes| - st.b.initial), 0)
  }

  function Plan(k: Job, st: Ground): Script
    requires st.b.initial <= |k.bytes|
  {
    ScriptOf(k.bytes, st.b, st.lag, st.ring)
  }

  /** The burst is under way, and a client can take all of it. */
  predicate Riding(k: Job, st: Ground, h: nat, i: nat, x: Net) {
    && st.b.result.None? && AtBurstStart(st.b, |k.bytes|) && st.b.toSend <= BURST && st.lag <= 1
    && x.w.sent <= st.b.toSend && x.w == AfterFrames(st.b, x.w.sent, |k.bytes|)
    && Flowing(Plan(k, st), st.a, h, i, x.w.sent, x)
    && (k.role.AsServer? || st.b.seqNo + st.b.toSend <= 255)
  }

  predicate Going(k: Job, st: Ground, h: nat, i: nat, x: Net, all: seq<byte>, ends: bool) {
    Begins(k, st, all, ends) && Riding(k, st, h, i, x)
  }

  /** write has returned; all frames still on the way are ones that the receiver has taken last. */
  predicate Finished(k: Job, x: Net, all: seq<byte>) {
    && x.w.result == Some(|k.bytes|) && x.r.state.Open? && x.r.ring == all
    && forall p | 0 <= p < |x.fwd| :: x.fwd[p].msg.Data? && x.fwd[p].msg.seqNo == x.r.remoteSeq
  }

  /** write goes on without a result, and the final number of its burst is not `n`. */
  predicate Endless(k: Job, w: Writer, n: byte) {
    w.result.None? && MidBurst(w, |k.bytes|) && FinalSeq(w) != n
  }

  /** Unused slots have matched: the burst that starts over is not the one for which the receiver waits. */
  predicate Stuck(k: Job, x: Net) {
    && Endless(k, x.w, 255) && x.w.seqNo in {1, 3, 4} && x.lastAck == 255 && x.r.state.Open? && x.r.remoteSeq == 255
    && (forall p | 0 <= p < |x.back| :: x.back[p].msg == Ack(255))
    && (forall p | 0 <= p < |x.fwd| :: x.fwd[p].msg.Data? && x.fwd[p].msg.seqNo != 0)
  }

  /** A client cannot take the burst's last frame, whose number has wrapped. */
  predicate Capped(k: Job, x: Net) {
    && k.role.AsClient? && Endless(k, x.w, x.lastAck) && FinalSeq(x.w) < 4 && x.r.state.Open? && x.r.remoteSeq >= 252
    && (forall p | 0 <= p < |x.back| :: x.back[p].msg.Ack? && x.back[p].msg.seqNo >= 252)
    && (forall p | 0 <= p < |x.fwd| :: x.fwd[p].msg.Data?)
  }

  lemma EndlessSends(k: Job, x: Net, n: byte)
    requires Endless(k, x.w, n)
    ensures var y := Apply(k, x, SendNext);
      || y == x
      || (Endless(k, y.w, n) && y.w.seqNo == x.w.seqNo && FinalSeq(y.w) == FinalSeq(x.w)
          && y == x.(w := y.w, fwd := x.fwd + [Tagged(x.base + x.w.sent + 1, BurstFrame(x.w, x.w.sent, k.bytes))]))
  {
    if Apply(k, x, SendNext) != x {
      MidSends(x.w, k.bytes);
    }
  }

  lemma StuckStep(k: Job, x: Net, step: Step)
    requires Stuck(k, x)
    ensures Apply(k, x, step).rough || Stuck(k, Apply(k, x, step))
  {
    match step
    case SendNext => EndlessSends(k, x, 255);
    case DeliverData =>
      if x.fwd != [] {
        DeliverOne(k, x, 255, x.r.ring);
      }
    case _ =>
  }

  lemma CappedDelivers(k: Job, x: Net)
    requires Capped(k, x)
    ensures Capped(k, Apply(k, x, DeliverData))
  {
    if x.fwd != [] {
      var n, m := x.r.remoteSeq, x.fwd[0].msg;
      if n < 255 && m.seqNo == n + 1 {
        DeliverOne(k, x, n + 1, x.r.ring + m.bytes);
      } else {
        assert Takes(k.role, x.r, m) == Act(x.r, [Ack(n)]);
      }
    }
  }

  lemma CappedStep(k: Job, x: Net, step: Step)
    requires Capped(k, x)
    ensures Apply(k, x, step).rough || Capped(k, Apply(k, x, step))
  {
    match step
    case SendNext => EndlessSends(k, x, x.lastAck);
    case DeliverData => CappedDelivers(k, x);
    case _ =>
  }

  lemma FinishedStep(k: Job, x: Net, all: seq<byte>, step: Step)
    requires Finished(k, x, all)
    ensures Apply(k, x, step).rough || Finished(k, Apply(k, x, step), all)
  {
    if step.DeliverData? && x.fwd != [] {
      assert x.r.remoteSeq != Next(x.r.remoteSeq);
      DeliverOne(k, x, x.r.remoteSeq, x.r.ring);
    }
  }

  lemma RidingSent(k: Job, st: Ground, h: nat, i: nat, x: Net, w: Writer, t: Tagged)
    requires Riding(k, st, h, i, x) && x.w.sent < st.b.toSend && w == AfterFrames(st.b, x.w.sent + 1, |k.bytes|)
    requires t.msg == BurstFrame(st.b, x.w.sent, k.bytes)
    ensures Riding(k, st, h, i, x.(w := w, fwd := x.fwd + [t]))
  {
    ScriptValues(k.bytes, st.b, st.lag, st.ring, x.w.sent);
    FlowSends(Plan(k, st), st.a, h, i, x.w.sent, x, w, t);
  }

  lemma RidingSends(k: Job, st: Ground, h: nat, i: nat, x: Net) returns (y: Net)
    requires Riding(k, st, h, i, x) && x.w.sent < st.b.toSend
    ensures y == Apply(k, x, SendNext) && Riding(k, st, h, i, y)
  {
    var w, f := AfterFrames(st.b, x.w.sent + 1, |k.bytes|), BurstFrame(st.b, x.w.sent, k.bytes);
    var t := Tagged(x.base + x.w.sent + 1, f);
    y := x.(w := w, fwd := x.fwd + [t]);
    RidingSent(k, st, h, i, x, w, t);
    SentStep(k, st.b, x.w.sent, x);
  }

  lemma RidingDelivers(k: Job, st: Ground, h: nat, i: nat, x: Net)
    requires Riding(k, st, h, i, x) && x.fwd != []
    ensures Riding(k, st, h, i + 1, Apply(k, x, DeliverData))
  {
    ScriptIsFollowed(k.role, k.bytes, st.b, st.lag, st.ring, i + 1);
    FlowDelivers(k, Plan(k, st), st.a, h, i, x.w.sent, x);
  }

  lemma RidingHears(k: Job, st: Ground, h: nat, i: nat, x: Net)
    requires Riding(k, st, h, i, x) && x.back != []
    ensures Riding(k, st, h + 1, i, Apply(k, x, DeliverAck))
  {
    FlowHears(k, Plan(k, st), st.a, h, i, x.w.sent, x);
  }

  /** The last number is heard only when the whole burst has been answered, except that a burst of one frame
      may find it heard from the beginning. */
  lemma LastIsHeard(k: Job, st: Ground, h: nat, i: nat, x: Net, all: seq<byte>, ends: bool)
    requires Going(k, st, h, i, x, all, ends) && x.w.sent == st.b.toSend && x.lastAck == FinalSeq(x.w)
    ensures h == st.b.toSend || (h == 0 && st.lag == 1 && st.b.toSend == 1)
    ensures Max(i, st.lag) == st.b.toSend
    ensures Taken(k.bytes, st.b, st.lag, i) == Taken(k.bytes, st.b, st.lag, st.b.toSend)
  {
    PlusDiffers(st.b.seqNo, st.b.toSend);
    if h == 0 {
      assert x.lastAck == st.a;
    } else {
      PlusDiffers(st.b.seqNo, Max(h, st.lag));
    }
  }

  /** Where a burst ends whose last number has been heard. */
  lemma GoingEnds(k: Job, st: Ground, h: nat, i: nat, x: Net, all: seq<byte>, ends: bool) returns (st': Ground)
    requires Going(k, st, h, i, x, all, ends) && x.w.sent == st.b.toSend && x.lastAck == FinalSeq(x.w)
    ensures var y := Apply(k, x, EndWait);
      || (ends && Finished(k, y, all))
      || (!ends && (Stuck(k, y) || Capped(k, y)))
      || Going(k, st', 0, 0, y, all, ends)
  {
    st' := st;
    LastIsHeard(k, st, h, i, x, all, ends);
    FramesLeft(|k.bytes|, st.b.initial);
    if x.lastAck == 255 && st.b.toSend < BURST {
      GetsStuck(k, st, h, i, x, all, ends);
    } else if PosAfter(st.b.initial, st.b.toSend, |k.bytes|) == |k.bytes| {
      Finishes(k, st, h, i, x, all, ends);
    } else {
      st' := GoesOn(k, st, x, all, ends);
    }
  }

  /** All frames and ACKs still on the way belong to a burst whose last number has been heard. */
  lemma LinksAtEnd(k: Job, st: Ground, h: nat, i: nat, x: Net, all: seq<byte>, ends: bool)
    requires Going(k, st, h, i, x, all, ends) && x.w.sent == st.b.toSend
    requires Max(i, st.lag) == st.b.toSend && (h == st.b.toSend || (h == 0 && st.lag == 1 && st.b.toSend == 1))
    ensures x.r.remoteSeq == FinalSeq(st.b)
    ensures forall p | 0 <= p < |x.back| :: x.back[p].msg == Ack(FinalSeq(st.b))
    ensures forall p | 0 <= p < |x.fwd| :: x.fwd[p].msg.Data? && x.fwd[p].msg.seqNo == FinalSeq(st.b)
  {
  }

  lemma GetsStuck(k: Job, st: Ground, h: nat, i: nat, x: Net, all: seq<byte>, ends: bool)
    requires Going(k, st, h, i, x, all, ends) && x.w.sent == st.b.toSend < BURST && x.lastAck == FinalSeq(x.w) == 255
    requires Max(i, st.lag) == st.b.toSend && (h == st.b.toSend || (h == 0 && st.lag == 1 && st.b.toSend == 1))
    ensures !ends && Stuck(k, Apply(k, x, EndWait))
  {
    LinksAtEnd(k, st, h, i, x, all, ends);
    NumberBefore255(st.b.seqNo, st.b.toSend);
    EndByHit(k, st.b, x);
    StuckWriter(k, Apply(k, x, EndWait).w);
  }

  lemma NumberBefore255(n: byte, j: nat)
    requires 1 <= j < BURST && Plus(n, j) == 255
    ensures n != 255 && Plus(n, Drift(j, Ahead(n, 255), BURST)) in {1, 3, 4}
  {
    assert n == 255 - j && Ahead(n, 255) == j - 1;
    DriftForm(j, j - 1);
  }

  lemma StuckWriter(k: Job, w: Writer)
    requires w.result.None? && AtBurstStart(w, |k.bytes|) && w.seqNo in {1, 3, 4}
    ensures Endless(k, w, 255)
  {
    MidStarts(w, |k.bytes|);
  }

  lemma Finishes(k: Job, st: Ground, h: nat, i: nat, x: Net, all: seq<byte>, ends: bool)
    requires Going(k, st, h, i, x, all, ends) && x.w.sent == st.b.toSend && x.lastAck == FinalSeq(x.w)
    requires Max(i, st.lag) == st.b.toSend && (h == st.b.toSend || (h == 0 && st.lag == 1 && st.b.toSend == 1))
    requires Taken(k.bytes, st.b, st.lag, i) == Taken(k.bytes, st.b, st.lag, st.b.toSend)
    requires x.lastAck != 255 || st.b.toSend == BURST
    requires PosAfter(st.b.initial, st.b.toSend, |k.bytes|) == |k.bytes|
    ensures ends && Finished(k, Apply(k, x, EndWait), all)
  {
    LinksAtEnd(k, st, h, i, x, all, ends);
    AllTaken(k, st, all, ends);
    EndOfWait(k, st.b, st.b.toSend, x);
  }

  /** After the last burst nothing is missing but what is skipped. */
  lemma AllTaken(k: Job, st: Ground, all: seq<byte>, ends: bool)
    requires Begins(k, st, all, ends) && PosAfter(st.b.initial, st.b.toSend, |k.bytes|) == |k.bytes|
    requires (k.role.AsServer? || st.b.seqNo + st.b.toSend <= 255) && (FinalSeq(st.b) != 255 || st.b.toSend == BURST)
    ensures ends && st.ring + Taken(k.bytes, st.b, st.lag, st.b.toSend) == all
  {
    FramesLeft(|k.bytes|, st.b.initial);
    SkippingStep(k, st.b, st.lag, 1, st.ring);
    assert Skipping(k.bytes, |k.bytes|, 1, 1) == [];
  }

  /** The next burst begins with its receiver one number ahead. */
  lemma GoesOn(k: Job, st: Ground, x: Net, all: seq<byte>, ends: bool) returns (st': Ground)
    requires Going(k, st, st.b.toSend, st.b.toSend, x, all, ends) && x.w.sent == st.b.toSend == BURST
    requires PosAfter(st.b.initial, BURST, |k.bytes|) < |k.bytes|
    ensures var y := Apply(k, x, EndWait);
      Going(k, st', 0, 0, y, all, ends) || (!ends && Capped(k, y))
  {
    var y := Apply(k, x, EndWait);
    EndOfWait(k, st.b, BURST, x);
    NextGround(k, st, y.w, all, ends);
    NextNumber(st.b.seqNo);
    st' := Ground(y.w, 1, y.lastAck, y.r.ring);
    BurstBegins(k, st', y, all, ends);
  }

  lemma NextNumber(n: byte)
    ensures Plus(n, BURST) == Plus(Plus(n, 3), 1) && (n + BURST <= 255 ==> Plus(n, 3) < 255)
  {
  }

  lemma NextGround(k: Job, st: Ground, w: Writer, all: seq<byte>, ends: bool)
    requires Begins(k, st, all, ends) && st.b.toSend == BURST && PosAfter(st.b.initial, BURST, |k.bytes|) < |k.bytes|
    requires w.initial == PosAfter(st.b.initial, BURST, |k.bytes|) && w.seqNo == Plus(st.b.seqNo, 3)
    requires k.role.AsServer? || st.b.seqNo + BURST <= 255
    ensures st.ring + Taken(k.bytes, st.b, st.lag, BURST) + Skipping(k.bytes, w.initial, 1, 1) == all
    ensures ends == Concludes(k.role, w.seqNo, Frames(|k.bytes| - w.initial), 0)
  {
    FramesLeft(|k.bytes|, st.b.initial);
    SkippingStep(k, st.b, st.lag, 1, st.ring);
  }

  /** At the start of a burst with nothing under way. */
  predicate Quiet(k: Job, st: Ground, x: Net) {
    && k.extra == 0 && x.w == st.b && x.w.result.None? && AtBurstStart(x.w, |k.bytes|) && st.lag <= 1
    && x.fwd == [] && x.back == [] && x.lastAck == st.a && x.r.ring == st.ring
    && (if st.lag == 1 then st.a == Plus(x.w.seqNo, 1) else st.a == x.w.seqNo || Ahead(x.w.seqNo, st.a) >= BURST)
    && x.r.state.Open? && x.r.remoteSeq == Plus(x.w.seqNo, st.lag)
  }

  lemma BurstBegins(k: Job, st: Ground, x: Net, all: seq<byte>, ends: bool)
    requires Quiet(k, st, x) && (k.role.AsClient? && st.lag == 1 ==> x.w.seqNo < 255)
    requires st.ring + Skipping(k.bytes, x.w.initial, st.lag, 1) == all
    requires ends == Concludes(k.role, x.w.seqNo, Frames(|k.bytes| - x.w.initial), 0)
    ensures Going(k, st, 0, 0, x, all, ends) || (!ends && Capped(k, x))
  {
    BurstStartForm(x.w, |k.bytes|);
    if k.role.AsServer? || x.w.seqNo + x.w.toSend <= 255 {
      BeginsRiding(k, st, x);
    } else {
      BeginsCapped(k, st, x);
    }
  }

  lemma BeginsRiding(k: Job, st: Ground, x: Net)
    requires Quiet(k, st, x) && (k.role.AsServer? || x.w.seqNo + x.w.toSend <= 255)
    ensures Riding(k, st, 0, 0, x)
  {
    BurstStartForm(x.w, |k.bytes|);
    assert st.ring + Taken(k.bytes, st.b, st.lag, 0) == st.ring;
  }

  lemma BeginsCapped(k: Job, st: Ground, x: Net)
    requires Quiet(k, st, x) && k.role.AsClient? && x.w.seqNo + x.w.toSend > 255 && (st.lag == 1 ==> x.w.seqNo < 255)
    ensures Capped(k, x)
  {
    BurstStartForm(x.w, |k.bytes|);
    MidStarts(x.w, |k.bytes|);
    PlusDiffers(x.w.seqNo, x.w.toSend);
  }

  ghost predicate SmoothInv(k: Job, x: Net, all: seq<byte>, ends: bool) {
    || x.rough
    || (ends && Finished(k, x, all))
    || (!ends && (Stuck(k, x) || Capped(k, x)))
    || exists st, h, i :: Going(k, st, h, i, x, all, ends)
  }

  lemma GoingStep(k: Job, st: Ground, h: nat, i: nat, x: Net, all: seq<byte>, ends: bool, step: Step)
    requires Going(k, st, h, i, x, all, ends)
    ensures SmoothInv(k, Apply(k, x, step), all, ends)
  {
    match step
    case SendNext =>
      if x.w.sent < st.b.toSend {
        var y := RidingSends(k, st, h, i, x);
      }
      assert Going(k, st, h, i, Apply(k, x, step), all, ends);
    case DeliverData =>
      if x.fwd != [] {
        RidingDelivers(k, st, h, i, x);
        assert Going(k, st, h, i + 1, Apply(k, x, step), all, ends);
      }
    case DeliverAck =>
      if x.back != [] {
        RidingHears(k, st, h, i, x);
        assert Going(k, st, h + 1, i, Apply(k, x, step), all, ends);
      }
    case EndWait =>
      if x.w.sent == st.b.toSend && x.lastAck == FinalSeq(x.w) {
        var st' := GoingEnds(k, st, h, i, x, all, ends);
      }
    case _ =>
  }

  lemma SmoothStep(k: Job, x: Net, all: seq<byte>, ends: bool, step: Step)
    requires SmoothInv(k, x, all, ends)
    ensures SmoothInv(k, Apply(k, x, step), all, ends)
  {
    if x.rough {
    } else if Finished(k, x, all) && ends {
      FinishedStep(k, x, all, step);
    } else if !ends && Stuck(k, x) {
      StuckStep(k, x, step);
    } else if !ends && Capped(k, x) {
      CappedStep(k, x, step);
    } else {
      var st, h, i :| Going(k, st, h, i, x, all, ends);
      GoingStep(k, st, h, i, x, all, ends, step);
    }
  }

  lemma {:induction false} SmoothRun(k: Job, s: byte, a: byte, r: Endpoint, steps: seq<Step>)
    requires k.bytes != [] && k.extra == 0 && Aligned(s, a, r)
    ensures var all, ends := r.ring + Skipping(k.bytes, 0, 0, 1), Concludes(k.role, s, Total(k), 0);
      SmoothInv(k, Run(k, Entered(k, s, a, r), steps), all, ends)
  {
    var all, ends := r.ring + Skipping(k.bytes, 0, 0, 1), Concludes(k.role, s, Total(k), 0);
    if steps == [] {
      var x := Entered(k, s, a, r);
      BurstBegins(k, Ground(x.w, 0, a, r.ring), x, all, ends);
    } else {
      SmoothRun(k, s, a, r, steps[..|steps| - 1]);
      SmoothStep(k, Run(k, Entered(k, s, a, r), steps[..|steps| - 1]), all, ends, steps[|steps| - 1]);
    }
  }

  /** Over links that lose nothing, with waits that end on the ACK of the last frame, a returned length means
      that the receiver has all bytes except the first frame of every burst but the first; and only a write
      whose every burst can end so returns its length. */
  lemma LosslessLoses(k: Job, s: byte, a: byte, r: Endpoint, steps: seq<Step>)
    requires k.bytes != [] && k.extra == 0 && Aligned(s, a, r)
    ensures var x := Run(k, Entered(k, s, a, r), steps);
      !x.rough && x.w.result == Some(|k.bytes|) ==>
        x.r.ring == r.ring + Skipping(k.bytes, 0, 0, 1) && Concludes(k.role, s, Total(k), 0)
  {
    SmoothRun(k, s, a, r, steps);
  }

  lemma SameBehind(a: seq<byte>, b: seq<byte>, c: seq<byte>)
    ensures a + b == a + c <==> b == c
  {
    assert (a + b)[|a|..] == b && (a + c)[|a|..] == c;
  }

  /** In a run without loss write is honest. */
  predicate SmoothlyHonest(k: Job, r: Endpoint, x: Net) {
    !x.rough ==> Honest(k, r, x)
  }

  lemma LossByAdvance(k: Job, s: byte, a: byte, r: Endpoint) returns (steps: seq<Step>)
    requires |k.bytes| > BURST * FRAME_BYTES && k.extra == 0 && Aligned(s, a, r) && Concludes(k.role, s, Total(k), 0)
    ensures !SmoothlyHonest(k, r, Run(k, Entered(k, s, a, r), steps))
  {
    var z := LosslessReturns(k, s, a, r);
    SkippingForm(k.bytes, 0);
    SameBehind(r.ring, Skipping(k.bytes, 0, 0, 1), k.bytes);
    steps :| Run(k, Entered(k, s, a, r), steps) == z;
  }

  /** Exactly when all bytes arrive over such links, in all runs that return their number: if and only if one
      burst holds them, or there are no such runs. */
  lemma LosslessExactly(k: Job, s: byte, a: byte, r: Endpoint)
    requires k.bytes != [] && k.extra == 0 && Aligned(s, a, r)
    ensures (forall steps :: SmoothlyHonest(k, r, Run(k, Entered(k, s, a, r), steps)))
      <==> |k.bytes| <= BURST * FRAME_BYTES || !Concludes(k.role, s, Total(k), 0)
  {
    SkippingForm(k.bytes, 0);
    SameBehind(r.ring, Skipping(k.bytes, 0, 0, 1), k.bytes);
    if |k.bytes| <= BURST * FRAME_BYTES || !Concludes(k.role, s, Total(k), 0) {
      forall steps
        ensures SmoothlyHonest(k, r, Run(k, Entered(k, s, a, r), steps))
      {
        LosslessLoses(k, s, a, r, steps);
      }
    } else {
      var steps := LossByAdvance(k, s, a, r);
      assert !SmoothlyHonest(k, r, Run(k, Entered(k, s, a, r), steps));
    }
  }
}
