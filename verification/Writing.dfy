/** SocketStream::write: segmentation into bursts, and what an acknowledgement does to the sender. */
module Writing {
  import opened Bytes
  import opened Packets
  import opened Endpoints

  const FRAME_BYTES := 52
  const BURST := 4
  const RETRIES := 3

  /** seq_tuple. An unused one is made by narrowing -1 to `uint8_t`. */
  datatype Slot = Slot(number: byte, pos: nat)

  const UNUSED := Slot(255, 0)

  type Slots = s: seq<Slot> | |s| == BURST witness [UNUSED, UNUSED, UNUSED, UNUSED]

  /** The variables of write, and its result once it has one. */
  datatype Writer = Writer(
    seqNo: byte, pos: nat, initial: nat, slots: Slots, sent: nat, toSend: nat, noAck: nat, result: Option<int>)

  function Min(a: nat, b: nat): nat {
    if a < b then a else b
  }

  /** How many frames `n` bytes take: as many as are needed. */
  function Frames(n: nat): (f: nat)
    ensures FRAME_BYTES * f < n + FRAME_BYTES && n <= FRAME_BYTES * f
  {
    if n == 0 then 0 else 1 + Frames(n - Min(n, FRAME_BYTES))
  }

  /** It is the quotient, rounded up as write does it. */
  lemma FramesForm(n: nat)
    ensures Frames(n) == n / FRAME_BYTES + if n % FRAME_BYTES != 0 then 1 else 0
  {
  }

  /** The start of a burst. */
  function Begin(w: Writer, len: nat): Writer
    requires w.pos <= len
  {
    w.(initial := w.pos, slots := [UNUSED, UNUSED, UNUSED, UNUSED], sent := 0,
       toSend := Min(Frames(len - w.pos), BURST))
  }

  function Start(seqNo: byte, len: nat): Writer {
    Begin(Writer(seqNo, 0, 0, [UNUSED, UNUSED, UNUSED, UNUSED], 0, 0, 0, None), len)
  }

  function Plus(n: byte, k: nat): byte {
    (n + k) % 256
  }

  /** The next frame of the burst, and the sender behind it. */
  function FrameOf(w: Writer, bytes: seq<byte>): Message
    requires w.pos <= |bytes|
  {
    Data(Plus(w.seqNo, w.sent + 1), bytes[w.pos..w.pos + Min(FRAME_BYTES, |bytes| - w.pos)])
  }

  function SendFrame(w: Writer, len: nat): Writer
    requires w.pos <= len && w.sent < BURST
  {
    var pos := w.pos + Min(FRAME_BYTES, len - w.pos);
    w.(pos := pos, sent := w.sent + 1, slots := w.slots[w.sent := Slot(Plus(w.seqNo, w.sent + 1), pos)])
  }

  /** The loop over the slots, as far as slot `n`. `extra` is what the sender adds to its sequence number
      beyond the index of a matching slot: 0 in the source. */
  function MatchUpTo(w: Writer, ack: byte, extra: nat, n: nat): (Writer, bool)
    requires n <= BURST
  {
    if n == 0 then (w, false)
    else
      var (v, found) := MatchUpTo(w, ack, extra, n - 1);
      if ack == w.slots[n - 1].number then (v.(pos := w.slots[n - 1].pos, seqNo := Plus(v.seqNo, n - 1 + extra)), true)
      else (v, found)
  }

  /** What write does with the acknowledgement that its wait ended with. */
  function Conclude(w: Writer, ack: byte, extra: nat, len: nat): Writer
    requires w.initial <= len && forall i | 0 <= i < BURST :: w.slots[i].pos <= len
  {
    if ack == w.seqNo then
      var v := w.(noAck := w.noAck + 1);
      if v.noAck == RETRIES then v.(result := Some(TIMEOUT))
      else Begin(v.(pos := w.initial), len)
    else
      var (v, found) := MatchUpTo(w, ack, extra, BURST);
      MatchedPosition(w, ack, extra, BURST, len);
      if !found then v.(result := Some(ACK_OUT_OF_SEQUENCE))
      else if v.pos == len then v.(result := Some(len))
      else Begin(v, len)
  }

  lemma {:induction false} MatchedPosition(w: Writer, ack: byte, extra: nat, n: nat, len: nat)
    requires n <= BURST && forall i | 0 <= i < BURST :: w.slots[i].pos <= len
    ensures var (v, found) := MatchUpTo(w, ack, extra, n);
      && v == w.(pos := v.pos, seqNo := v.seqNo)
      && (found ==> v.pos <= len)
      && (!found ==> v == w)
  {
    if n > 0 {
      MatchedPosition(w, ack, extra, n - 1, len);
    }
  }

  /** The end of the `k`-th frame of a burst that starts at `initial`. */
  function PosAfter(initial: nat, k: nat, len: nat): nat {
    Min(len, initial + FRAME_BYTES * k)
  }

  /** The sender after `k` frames of a burst, in closed form. */
  function AfterFrames(w: Writer, k: nat, len: nat): Writer
    requires k <= BURST
  {
    w.(sent := k, pos := PosAfter(w.initial, k, len),
       slots := seq(BURST, i requires 0 <= i < BURST =>
                      if i < k then Slot(Plus(w.seqNo, i + 1), PosAfter(w.initial, i + 1, len)) else UNUSED))
  }

  lemma SlotFilled(w: Writer, i: nat, len: nat)
    requires i < BURST
    ensures AfterFrames(w, i, len).slots[i := Slot(Plus(w.seqNo, i + 1), PosAfter(w.initial, i + 1, len))]
      == AfterFrames(w, i + 1, len).slots
  {
  }

  lemma AfterFramesAgain(w: Writer, k: nat, len: nat)
    requires k <= BURST
    ensures var v := AfterFrames(w, k, len); AfterFrames(v, k, len) == v
  {
    assert AfterFrames(AfterFrames(w, k, len), k, len).slots == AfterFrames(w, k, len).slots;
  }

  predicate AtBurstStart(w: Writer, len: nat) {
    w.pos == w.initial < len && w == Begin(w, len)
  }

  lemma BurstStartForm(w: Writer, len: nat)
    requires AtBurstStart(w, len)
    ensures w == AfterFrames(w, 0, len) && 1 <= w.toSend <= BURST
    ensures forall k | 0 <= k < w.toSend :: w.initial + FRAME_BYTES * k < len
  {
    assert AfterFrames(w, 0, len).slots == w.slots;
  }

  lemma FrameForm(w: Writer, k: nat, len: nat)
    requires k < BURST && w.initial + FRAME_BYTES * k <= len
    ensures SendFrame(AfterFrames(w, k, len), len) == AfterFrames(w, k + 1, len)
  {
    assert SendFrame(AfterFrames(w, k, len), len).slots == AfterFrames(w, k + 1, len).slots;
  }

  /** The `k`-th frame of a burst. */
  function BurstFrame(w: Writer, k: nat, bytes: seq<byte>): Message
    requires w.initial <= |bytes|
  {
    Data(Plus(w.seqNo, k + 1), bytes[PosAfter(w.initial, k, |bytes|)..PosAfter(w.initial, k + 1, |bytes|)])
  }

  lemma FrameSent(w: Writer, k: nat, bytes: seq<byte>)
    requires k < BURST && w.initial + FRAME_BYTES * k <= |bytes|
    ensures FrameOf(AfterFrames(w, k, |bytes|), bytes) == BurstFrame(w, k, bytes)
  {
  }

  /** The sender at the start of the burst under way. */
  function AtStart(w: Writer, len: nat): Writer
    requires w.initial <= len
  {
    Begin(w.(pos := w.initial), len)
  }

  /** A burst is under way. */
  predicate MidBurst(w: Writer, len: nat) {
    w.initial < len && w.sent <= w.toSend == Min(Frames(len - w.initial), BURST) && w == AfterFrames(w, w.sent, len)
  }

  lemma MidStarts(w: Writer, len: nat)
    requires AtBurstStart(w, len)
    ensures MidBurst(w, len) && w.sent == 0
  {
    BurstStartForm(w, len);
  }

  lemma MidSends(w: Writer, bytes: seq<byte>)
    requires MidBurst(w, |bytes|) && w.sent < w.toSend
    ensures w.pos <= |bytes| && FrameOf(w, bytes) == BurstFrame(w, w.sent, bytes)
    ensures var v := SendFrame(w, |bytes|);
      MidBurst(v, |bytes|) && v == w.(sent := w.sent + 1, pos := v.pos, slots := v.slots)
  {
    assert w.initial + FRAME_BYTES * w.sent < |bytes|;
    FrameForm(w, w.sent, |bytes|);
    FrameSent(w, w.sent, bytes);
    AfterFramesAgain(w, w.sent + 1, |bytes|);
  }

  lemma MidEnds(w: Writer, len: nat)
    requires MidBurst(w, len) && w.sent == w.toSend
    ensures var b := AtStart(w, len);
      && AtBurstStart(b, len) && AfterFrames(b, b.toSend, len) == w
      && b == w.(pos := w.initial, slots := b.slots, sent := 0)
  {
  }

  function FrameData(w: Writer, k: nat, bytes: seq<byte>): seq<byte>
    requires w.initial <= |bytes|
  {
    if k == 0 then [] else FrameData(w, k - 1, bytes) + BurstFrame(w, k - 1, bytes).bytes
  }

  lemma FrameSize(w: Writer, i: nat, bytes: seq<byte>)
    requires AtBurstStart(w, |bytes|) && i < w.toSend
    ensures var f := BurstFrame(w, i, bytes);
      1 <= |f.bytes| <= FRAME_BYTES && |Encode(f)| <= PAYLOAD_ROOM && f.seqNo == Plus(w.seqNo, i + 1)
  {
    BurstStartForm(w, |bytes|);
  }

  lemma {:induction false} FramesConcatenate(w: Writer, k: nat, bytes: seq<byte>)
    requires w.initial <= |bytes|
    ensures FrameData(w, k, bytes) == bytes[w.initial..PosAfter(w.initial, k, |bytes|)]
  {
    if k > 0 {
      FramesConcatenate(w, k - 1, bytes);
      var a, b := PosAfter(w.initial, k - 1, |bytes|), PosAfter(w.initial, k, |bytes|);
      assert bytes[w.initial..a] + bytes[a..b] == bytes[w.initial..b];
    }
  }

  /** Segmentation: a burst has 1 to 4 frames of 1 to 52 bytes, which with their two header bytes fit
      the payload; they carry consecutive numbers; and together they are the bytes from the start of
      the burst to the position recorded for the last, which is the end unless the burst is full. */
  lemma Segmentation(w: Writer, bytes: seq<byte>)
    requires AtBurstStart(w, |bytes|)
    ensures 1 <= w.toSend <= BURST
    ensures FrameData(w, w.toSend, bytes) == bytes[w.initial..AfterFrames(w, w.toSend, |bytes|).pos]
    ensures forall i | 0 <= i < w.toSend ::
      var f := BurstFrame(w, i, bytes);
      1 <= |f.bytes| <= FRAME_BYTES && |Encode(f)| <= PAYLOAD_ROOM && f.seqNo == Plus(w.seqNo, i + 1)
    ensures AfterFrames(w, w.toSend, |bytes|).pos <= |bytes|
    ensures w.toSend < BURST ==> AfterFrames(w, w.toSend, |bytes|).pos == |bytes|
  {
    BurstStartForm(w, |bytes|);
    FramesConcatenate(w, w.toSend, bytes);
    forall i | 0 <= i < w.toSend
      ensures var f := BurstFrame(w, i, bytes);
        1 <= |f.bytes| <= FRAME_BYTES && |Encode(f)| <= PAYLOAD_ROOM && f.seqNo == Plus(w.seqNo, i + 1)
    {
      FrameSize(w, i, bytes);
    }
  }

  function FinalSeq(w: Writer): byte {
    Plus(w.seqNo, w.toSend)
  }

  lemma {:induction false} AfterFramesStays(w: Writer, k: nat, len: nat)
    requires k <= BURST && w.initial <= len
    ensures forall i | 0 <= i < BURST :: AfterFrames(w, k, len).slots[i].pos <= len
  {
  }

  /** write from the start of a burst on, as far as the waits go for which `acks` says what last_recved_ack
      is at their end. There is no result while they do not suffice. */
  function WriteOn(w: Writer, len: nat, acks: seq<byte>): (v: Writer)
    requires w.result.None? ==> AtBurstStart(w, len)
    ensures v.result.None? ==> AtBurstStart(v, len)
    decreases |acks|
  {
    if w.result.Some? || acks == [] then w
    else
      AfterFramesStays(w, w.toSend, len);
      ConcludeForm(w, acks[0], 0, len);
      WriteOn(Conclude(AfterFrames(w, w.toSend, len), acks[0], 0, len), len, acks[1..])
  }

  /** A burst ends in a result or at the start of another burst; the retry counter is never reset. */
  lemma ConcludeForm(w: Writer, ack: byte, extra: nat, len: nat)
    requires AtBurstStart(w, len) && w.result.None?
    requires forall i | 0 <= i < BURST :: AfterFrames(w, w.toSend, len).slots[i].pos <= len
    ensures var v := Conclude(AfterFrames(w, w.toSend, len), ack, extra, len);
      && (v.result.None? ==> AtBurstStart(v, len))
      && v.noAck == w.noAck + (if ack == w.seqNo then 1 else 0)
  {
    MatchedPosition(AfterFrames(w, w.toSend, len), ack, extra, BURST, len);
  }

  /** An ACK of 255 matches the unused slots of a burst of fewer than four frames. */
  predicate SentinelHit(w: Writer, ack: byte) {
    ack == 255 && w.toSend < BURST && ack != w.seqNo
  }

  /** How far `ack` is ahead of the first number of a burst behind `n`. */
  function Ahead(n: byte, ack: byte): nat {
    (ack + 255 - n) % 256
  }

  lemma AheadIsIndex(n: byte, ack: byte, i: nat)
    requires i < 255
    ensures ack == Plus(n, i + 1) <==> Ahead(n, ack) == i
  {
  }

  /** Without the sentinel, an ACK matches at most one slot: the one whose number it carries. */
  lemma {:induction false} MatchForm(w: Writer, ack: byte, extra: nat, n: nat, len: nat)
    requires w.toSend <= BURST && n <= BURST && !(ack == 255 && w.toSend < BURST)
    ensures var f, d := AfterFrames(w, w.toSend, len), Ahead(w.seqNo, ack);
      MatchUpTo(f, ack, extra, n) ==
        if d < n && d < w.toSend then
          (f.(pos := PosAfter(w.initial, d + 1, len), seqNo := Plus(w.seqNo, d + extra)), true)
        else (f, false)
  {
    if n > 0 {
      MatchForm(w, ack, extra, n - 1, len);
      AheadIsIndex(w.seqNo, ack, n - 1);
    }
  }

  /** What an answered wait does: the burst goes on behind the acknowledged frame, or fails. */
  lemma ConcludeMatch(w: Writer, ack: byte, extra: nat, len: nat)
    requires AtBurstStart(w, len) && w.result.None? && !SentinelHit(w, ack) && ack != w.seqNo
    requires forall i | 0 <= i < BURST :: AfterFrames(w, w.toSend, len).slots[i].pos <= len
    ensures var v, d := Conclude(AfterFrames(w, w.toSend, len), ack, extra, len), Ahead(w.seqNo, ack);
      if d < w.toSend then
        && v.seqNo == Plus(w.seqNo, d + extra) && v.noAck == w.noAck
        && v.pos == PosAfter(w.initial, d + 1, len) > w.initial
        && (v.pos == len ==> v.result == Some(len))
        && (v.pos != len ==> v.result.None? && v == Begin(v, len) && v.initial == v.pos)
      else v.result == Some(ACK_OUT_OF_SEQUENCE) && v.seqNo == w.seqNo
  {
    MatchForm(w, ack, extra, BURST, len);
    BurstStartForm(w, len);
  }

  /** At the end of none of the waits an ACK of 255 matches an unused slot. */
  predicate SentinelFree(w: Writer, len: nat, acks: seq<byte>)
    requires w.result.None? ==> AtBurstStart(w, len)
    decreases |acks|
  {
    if w.result.Some? || acks == [] then true
    else
      AfterFramesStays(w, w.toSend, len);
      ConcludeForm(w, acks[0], 0, len);
      !SentinelHit(w, acks[0]) && SentinelFree(Conclude(AfterFrames(w, w.toSend, len), acks[0], 0, len), len, acks[1..])
  }

  lemma FramesMonotone(a: nat, b: nat)
    requires a > b && (b == 0 || a - b >= FRAME_BYTES)
    ensures Frames(a) > Frames(b)
  {
  }

  /** Termination: whatever is acknowledged, write has a result after at most as many waits as there are
      frames left plus the retries left, the last retry included. */
  lemma {:induction false} WriteTerminates(w: Writer, len: nat, acks: seq<byte>)
    requires w.result.None? && AtBurstStart(w, len) && w.noAck < RETRIES
    requires SentinelFree(w, len, acks)
    requires |acks| >= Frames(len - w.initial) + (RETRIES - 1 - w.noAck)
    ensures WriteOn(w, len, acks).result.Some?
    decreases |acks|
  {
    AfterFramesStays(w, w.toSend, len);
    ConcludeForm(w, acks[0], 0, len);
    var v := Conclude(AfterFrames(w, w.toSend, len), acks[0], 0, len);
    if v.result.None? {
      if acks[0] != w.seqNo {
        ConcludeMatch(w, acks[0], 0, len);
        FramesMonotone(len - w.initial, len - v.initial);
      }
      WriteTerminates(v, len, acks[1..]);
    }
  }

  /** What an ACK of 255 adds to the number on the way through the first `n` slots, if `frames` of them are
      in use and the one with index `d` carries 255: the indices of all that match. */
  function Drift(frames: nat, d: nat, n: nat): nat {
    if n == 0 then 0 else Drift(frames, d, n - 1) + if n - 1 >= frames || n - 1 == d then n - 1 else 0
  }

  lemma PlusTwice(n: byte, a: nat, b: nat)
    ensures Plus(Plus(n, a), b) == Plus(n, a + b) && Plus(n, 0) == n
  {
  }

  lemma SlotOf255(w: Writer, len: nat, i: nat)
    requires w.toSend < BURST && i < BURST
    ensures var slot := AfterFrames(w, w.toSend, len).slots[i];
      && (slot.number == 255 <==> i >= w.toSend || i == Ahead(w.seqNo, 255))
      && (i >= w.toSend ==> slot.pos == 0)
  {
    AheadIsIndex(w.seqNo, 255, i);
  }

  lemma {:induction false} DriftUpTo(w: Writer, len: nat, n: nat)
    requires w.toSend < BURST && n <= BURST
    ensures var f, drift := AfterFrames(w, w.toSend, len), Drift(w.toSend, Ahead(w.seqNo, 255), n);
      var (v, found) := MatchUpTo(f, 255, 0, n);
      && v == f.(pos := v.pos, seqNo := Plus(w.seqNo, drift))
      && (n > w.toSend ==> found && v.pos == 0)
  {
    if n == 0 {
      PlusTwice(w.seqNo, 0, 0);
    } else {
      DriftUpTo(w, len, n - 1);
      SlotOf255(w, len, n - 1);
      PlusTwice(w.seqNo, Drift(w.toSend, Ahead(w.seqNo, 255), n - 1), n - 1);
    }
  }

  /** An ACK of 255 in a burst of fewer than four frames: all unused slots match, so that the position is
      that of the last one, 0, and the number drifts. */
  lemma SentinelMatch(w: Writer, len: nat)
    requires w.toSend < BURST
    ensures var f, drift := AfterFrames(w, w.toSend, len), Drift(w.toSend, Ahead(w.seqNo, 255), BURST);
      MatchUpTo(f, 255, 0, BURST) == (f.(pos := 0, seqNo := Plus(w.seqNo, drift)), true)
  {
    DriftUpTo(w, len, BURST);
  }

  lemma DriftForm(frames: nat, d: nat)
    requires 1 <= frames < BURST
    ensures Drift(frames, d, BURST) ==
      (if frames == 1 then 6 else if frames == 2 then 5 else 3) + if d < frames then d else 0
  {
    assert Drift(frames, d, 1) == 0;
    assert Drift(frames, d, 2) == if frames == 1 || d == 1 then 1 else 0;
    assert Drift(frames, d, 3) == Drift(frames, d, 2) + if frames <= 2 || d == 2 then 2 else 0;
  }

  /** The numbers among which an acknowledged write of one, two or three frames drifts for ever. */
  predicate Drifting(frames: nat, n: byte) {
    (frames == 1 && n % 2 == 0) || (frames == 2 && n % 5 == 3) || (frames == 3 && (n % 3 == 1 || n == 252))
  }

  lemma DriftStays(frames: nat, n: byte)
    requires Drifting(frames, n)
    ensures n != 255 && Drifting(frames, Plus(n, Drift(frames, Ahead(n, 255), BURST)))
  {
    DriftForm(frames, Ahead(n, 255));
    if frames == 1 {
      DriftOfOne(n);
    } else if frames == 2 {
      DriftOfTwo(n);
    } else {
      DriftOfThree(n);
    }
  }

  lemma DriftOfOne(n: byte)
    requires n % 2 == 0
    ensures Ahead(n, 255) == 254 - n && Plus(n, 6) % 2 == 0
  {
  }

  lemma DriftOfTwo(n: byte)
    requires n % 5 == 3
    ensures Ahead(n, 255) == 254 - n && Plus(n, 5 + if n == 253 then 1 else 0) % 5 == 3
  {
  }

  lemma DriftOfThree(n: byte)
    requires n % 3 == 1 || n == 252
    ensures Ahead(n, 255) == 254 - n && Plus(n, 3 + if n >= 252 then 254 - n else 0) % 3 == 1
  {
  }

  /** When unused slots match, write starts over from the first byte, behind another number. */
  lemma SentinelRestarts(w: Writer, len: nat)
    requires AtBurstStart(w, len) && w.result.None? && w.toSend < BURST && w.seqNo != 255
    requires forall i | 0 <= i < BURST :: AfterFrames(w, w.toSend, len).slots[i].pos <= len
    ensures var v := Conclude(AfterFrames(w, w.toSend, len), 255, 0, len);
      && v.result.None? && AtBurstStart(v, len) && v.initial == 0 && v.noAck == w.noAck
      && v.toSend == Min(Frames(len), BURST) && v.seqNo == Plus(w.seqNo, Drift(w.toSend, Ahead(w.seqNo, 255), BURST))
  {
    SentinelMatch(w, len);
  }

  lemma {:induction false} DriftNeverEnds(w: Writer, len: nat, acks: seq<byte>)
    requires AtBurstStart(w, len) && w.result.None? && w.initial == 0 && Frames(len) < BURST
    requires Drifting(Frames(len), w.seqNo)
    requires forall i | 0 <= i < |acks| :: acks[i] == 255
    ensures WriteOn(w, len, acks).result.None?
    decreases |acks|
  {
    if acks != [] {
      AfterFramesStays(w, w.toSend, len);
      ConcludeForm(w, 255, 0, len);
      SentinelRestarts(w, len);
      DriftStays(Frames(len), w.seqNo);
      DriftNeverEnds(Conclude(AfterFrames(w, w.toSend, len), 255, 0, len), len, acks[1..]);
    }
  }

  /** The sentinel's price, exactly: a write of at most four frames, all of which are acknowledged in every
      wait, returns its length if the last number is not 255 or there are four frames; otherwise it never
      ends, however often the peer repeats the acknowledgement. */
  lemma AcknowledgedWriteEnds(s: byte, len: nat, acks: seq<byte>)
    requires 0 < len <= FRAME_BYTES * BURST && acks != []
    requires forall i | 0 <= i < |acks| :: acks[i] == Plus(s, Frames(len))
    ensures WriteOn(Start(s, len), len, acks).result ==
      if Plus(s, Frames(len)) != 255 || Frames(len) == BURST then Some(len) else None
  {
    var w, final := Start(s, len), Plus(s, Frames(len));
    StartOfShort(s, len);
    if final == 255 && Frames(len) < BURST {
      DriftBegins(Frames(len), s);
      DriftNeverEnds(w, len, acks);
    } else {
      AnswerAt(w, len, Frames(len), 0);
      assert WriteOn(w, len, acks) == WriteOn(Conclude(AfterFrames(w, w.toSend, len), final, 0, len), len, acks[1..]);
    }
  }

  lemma StartOfShort(s: byte, len: nat)
    requires 0 < len <= FRAME_BYTES * BURST
    ensures var w := Start(s, len);
      AtBurstStart(w, len) && w.toSend == Frames(len) && 1 <= Frames(len) <= BURST && w.initial == 0 && w.result.None?
  {
  }

  lemma DriftBegins(frames: nat, s: byte)
    requires 1 <= frames < BURST && Plus(s, frames) == 255
    ensures Drifting(frames, s)
  {
  }

  lemma PlusDiffers(n: byte, m: nat)
    requires 0 < m <= BURST
    ensures Plus(n, m) != n && Ahead(n, Plus(n, m)) == m - 1
  {
  }

  /** A burst whose `m`-th frame is the one acknowledged. */
  lemma AnswerAt(w: Writer, len: nat, m: nat, extra: nat)
    requires AtBurstStart(w, len) && w.result.None? && 0 < m <= w.toSend
    requires (Plus(w.seqNo, m) != 255 || w.toSend == BURST)
    ensures w.toSend <= BURST && forall i | 0 <= i < BURST :: AfterFrames(w, w.toSend, len).slots[i].pos <= len
    ensures var v := Conclude(AfterFrames(w, w.toSend, len), Plus(w.seqNo, m), extra, len);
      var pos := PosAfter(w.initial, m, len);
      && v.seqNo == Plus(w.seqNo, m - 1 + extra) && pos > w.initial
      && (if pos == len then v.result == Some(len) else v.result.None? && AtBurstStart(v, len) && v.initial == pos)
  {
    BurstStartForm(w, len);
    AfterFramesStays(w, w.toSend, len);
    PlusDiffers(w.seqNo, m);
    ConcludeMatch(w, Plus(w.seqNo, m), extra, len);
  }

  /** How many waits up to the result end with the sender's own number as the last ACK. */
  function Unanswered(w: Writer, len: nat, acks: seq<byte>): nat
    requires w.result.None? ==> AtBurstStart(w, len)
    decreases |acks|
  {
    if w.result.Some? || acks == [] then 0
    else
      AfterFramesStays(w, w.toSend, len);
      ConcludeForm(w, acks[0], 0, len);
      var v := Conclude(AfterFrames(w, w.toSend, len), acks[0], 0, len);
      (if acks[0] == w.seqNo then 1 else 0) + Unanswered(v, len, acks[1..])
  }

  /** A wait ends the write with TIMEOUT exactly when it is the third one without an answer, in a row or not. */
  lemma TimeoutOfWait(w: Writer, ack: byte, len: nat)
    requires AtBurstStart(w, len) && w.result.None? && w.noAck < RETRIES
    requires forall i | 0 <= i < BURST :: AfterFrames(w, w.toSend, len).slots[i].pos <= len
    ensures var v := Conclude(AfterFrames(w, w.toSend, len), ack, 0, len);
      && (v.result == Some(TIMEOUT) <==> v.noAck == RETRIES) && v.noAck <= RETRIES
      && v.noAck == w.noAck + if ack == w.seqNo then 1 else 0
  {
    MatchedPosition(AfterFrames(w, w.toSend, len), ack, 0, BURST, len);
  }

  /** Exactly when write gives up: if and only if three waits go unanswered. */
  lemma {:induction false} TimesOutExactly(w: Writer, len: nat, acks: seq<byte>)
    requires AtBurstStart(w, len) && w.result.None? && w.noAck < RETRIES
    ensures WriteOn(w, len, acks).result == Some(TIMEOUT) <==> w.noAck + Unanswered(w, len, acks) == RETRIES
    decreases |acks|
  {
    if acks != [] {
      AfterFramesStays(w, w.toSend, len);
      ConcludeForm(w, acks[0], 0, len);
      TimeoutOfWait(w, acks[0], len);
      var v := Conclude(AfterFrames(w, w.toSend, len), acks[0], 0, len);
      if v.result.None? {
        TimesOutExactly(v, len, acks[1..]);
      }
    }
  }

  /** If nothing but the sender's own number is ever the last ACK, the first burst goes out three times, and then
      write returns TIMEOUT. */
  lemma {:induction false} SilenceTimesOut(w: Writer, len: nat, acks: seq<byte>)
    requires AtBurstStart(w, len) && w.result.None? && w.noAck < RETRIES
    requires forall i | 0 <= i < |acks| :: acks[i] == w.seqNo
    ensures if w.noAck + |acks| < RETRIES then WriteOn(w, len, acks) == w.(noAck := w.noAck + |acks|)
            else WriteOn(w, len, acks).result == Some(TIMEOUT)
    decreases |acks|
  {
    if acks != [] {
      AfterFramesStays(w, w.toSend, len);
      ConcludeForm(w, acks[0], 0, len);
      if w.noAck + 1 < RETRIES {
        var v := Conclude(AfterFrames(w, w.toSend, len), acks[0], 0, len);
        assert v == w.(noAck := w.noAck + 1);
        SilenceTimesOut(v, len, acks[1..]);
      }
    }
  }
}
