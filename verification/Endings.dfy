/** For which writes an end is certain, whatever is acknowledged. */
module Endings {
  import opened Bytes
  import opened Writing

  /** write has a result after `n` waits at most, whatever the last ACK is at the end of each. */
  ghost predicate EndsWithin(s: byte, len: nat, n: nat)
    requires len > 0
  {
    forall acks | |acks| >= n :: WriteOn(Start(s, len), len, acks).result.Some?
  }

  /** The numbers that 255 can lead to from here do not lead back; only such writes are certain to end. */
  predicate CertainToEnd(s: byte, frames: nat) {
    (frames == 1 && s % 2 == 1) || (frames == 2 && s == 255)
  }

  lemma {:induction false} WriteOnAppend(w: Writer, len: nat, a: seq<byte>, b: seq<byte>)
    requires w.result.None? ==> AtBurstStart(w, len)
    ensures WriteOn(w, len, a + b) == WriteOn(WriteOn(w, len, a), len, b)
    decreases |a|
  {
    if a == [] || w.result.Some? {
      assert a == [] ==> a + b == b;
    } else {
      OneWait(w, len, a);
      OneWait(w, len, a + b);
      assert (a + b)[1..] == a[1..] + b;
      AfterFramesStays(w, w.toSend, len);
      ConcludeForm(w, a[0], 0, len);
      WriteOnAppend(Conclude(AfterFrames(w, w.toSend, len), a[0], 0, len), len, a[1..], b);
    }
  }

  lemma OneWait(w: Writer, len: nat, acks: seq<byte>)
    requires w.result.None? && AtBurstStart(w, len) && acks != []
    ensures forall i | 0 <= i < BURST :: AfterFrames(w, w.toSend, len).slots[i].pos <= len
    ensures var v := Conclude(AfterFrames(w, w.toSend, len), acks[0], 0, len);
      (v.result.None? ==> AtBurstStart(v, len)) && WriteOn(w, len, acks) == WriteOn(v, len, acks[1..])
  {
    AfterFramesStays(w, w.toSend, len);
    ConcludeForm(w, acks[0], 0, len);
  }

  /** write is back at its first byte and not certain to end. */
  predicate Loops(w: Writer, len: nat) {
    AtBurstStart(w, len) && w.result.None? && w.initial == 0 && !CertainToEnd(w.seqNo, Frames(len))
  }

  /** An ACK of frame `m`, and then those of `more`. */
  lemma AckFirst(w: Writer, len: nat, m: nat, more: seq<byte>)
    requires AtBurstStart(w, len) && w.result.None? && 0 < m <= w.toSend
    requires (Plus(w.seqNo, m) != 255 || w.toSend == BURST)
    requires PosAfter(w.initial, m, len) < len
    ensures var v := WriteOn(w, len, [Plus(w.seqNo, m)]);
      && v.result.None? && AtBurstStart(v, len) && v.seqNo == Plus(w.seqNo, m - 1)
      && v.initial == PosAfter(w.initial, m, len)
      && WriteOn(w, len, [Plus(w.seqNo, m)] + more) == WriteOn(v, len, more)
  {
    OneWait(w, len, [Plus(w.seqNo, m)]);
    AnswerAt(w, len, m, 0);
    WriteOnAppend(w, len, [Plus(w.seqNo, m)], more);
  }

  /** Frame by frame up to the last three, and then an ACK of 255: write starts over. */
  lemma {:induction false} HitLater(w: Writer, len: nat) returns (acks: seq<byte>)
    requires AtBurstStart(w, len) && w.result.None? && w.seqNo != 255
    ensures acks != []
    ensures var v := WriteOn(w, len, acks);
      && v.result.None? && AtBurstStart(v, len) && v.initial == 0
      && (w.toSend < BURST ==> v.seqNo == Plus(w.seqNo, Drift(w.toSend, Ahead(w.seqNo, 255), BURST)))
    decreases len - w.initial
  {
    if w.toSend < BURST {
      acks := [255];
      OneWait(w, len, acks);
      SentinelRestarts(w, len);
    } else {
      var v := WriteOn(w, len, [Plus(w.seqNo, 1)]);
      AckFirst(w, len, 1, []);
      PlusTwice(w.seqNo, 0, 0);
      var more := HitLater(v, len);
      AckFirst(w, len, 1, more);
      acks := [Plus(w.seqNo, 1)] + more;
    }
  }

  lemma OneFrameLoops(w: Writer, len: nat) returns (acks: seq<byte>)
    requires Loops(w, len) && Frames(len) == 1
    ensures acks != [] && Loops(WriteOn(w, len, acks), len)
  {
    acks := HitLater(w, len);
    DriftOfOne(w.seqNo);
    DriftForm(1, Ahead(w.seqNo, 255));
  }

  /** From 250 an ACK of 255 would lead to 255; an ACK of the first frame before it leads to 0 instead. */
  lemma TwoFramesLoop(w: Writer, len: nat) returns (acks: seq<byte>)
    requires Loops(w, len) && Frames(len) == 2
    ensures acks != [] && Loops(WriteOn(w, len, acks), len)
  {
    TwoNumbers(w.seqNo);
    if w.seqNo == 250 {
      var v := WriteOn(w, len, [251]);
      AckFirst(w, len, 1, []);
      var more := HitLater(v, len);
      AckFirst(w, len, 1, more);
      acks := [251] + more;
    } else {
      acks := HitLater(w, len);
    }
  }

  lemma TwoNumbers(n: byte)
    requires n != 255
    ensures n != 250 ==> Plus(n, Drift(2, Ahead(n, 255), BURST)) != 255
    ensures n == 250 ==> Plus(n, Drift(1, Ahead(n, 255), BURST)) == 0 && Plus(n, 1) == 251 && Plus(n, 0) == 250
  {
    assert Ahead(n, 255) == 254 - n;
    DriftForm(2, 254 - n);
    DriftForm(1, 254 - n);
  }

  lemma ManyFramesLoop(w: Writer, len: nat) returns (acks: seq<byte>)
    requires Loops(w, len) && Frames(len) >= 3
    ensures acks != [] && Loops(WriteOn(w, len, acks), len)
  {
    if w.seqNo == 255 {
      var v := WriteOn(w, len, [1]);
      AckFirst(w, len, 2, []);
      var more := HitLater(v, len);
      AckFirst(w, len, 2, more);
      acks := [1] + more;
    } else {
      acks := HitLater(w, len);
    }
  }

  lemma {:induction false} NeverEnds(w: Writer, len: nat, n: nat) returns (acks: seq<byte>)
    requires Loops(w, len)
    ensures |acks| >= n && WriteOn(w, len, acks).result.None?
    decreases n
  {
    if n == 0 {
      acks := [];
    } else {
      var first;
      if Frames(len) == 1 {
        first := OneFrameLoops(w, len);
      } else if Frames(len) == 2 {
        first := TwoFramesLoop(w, len);
      } else {
        first := ManyFramesLoop(w, len);
      }
      var more := NeverEnds(WriteOn(w, len, first), len, n - 1);
      WriteOnAppend(w, len, first, more);
      acks := first + more;
    }
  }

  /** How many drifts of a write of one frame lead from the `m`-th odd number below 255 to it: those below are
      passed in threes, with one more round behind the first and two behind the second. */
  function Rounds(m: nat): nat {
    if m % 3 == 0 then m / 3 else if m % 3 == 1 then m / 3 + 43 else m / 3 + 86
  }

  function Distance(n: byte): nat {
    Rounds((255 - n) / 2)
  }

  lemma RoundsShrink(m: nat)
    ensures Rounds(m + 3) == Rounds(m) + 1
  {
    assert (m + 3) / 3 == m / 3 + 1;
  }

  lemma DistanceShrinks(n: byte)
    requires n % 2 == 1 && n != 255
    ensures Plus(n, 6) % 2 == 1 && Distance(Plus(n, 6)) == Distance(n) - 1
  {
    if n < 250 {
      assert (255 - Plus(n, 6)) / 2 == (255 - n) / 2 - 3;
      RoundsShrink((255 - Plus(n, 6)) / 2);
    } else if n == 251 {
      assert Distance(251) == 86 && Distance(1) == 85;
    } else {
      assert Distance(253) == 43 && Distance(3) == 42;
    }
  }

  /** One frame behind an odd number: every drift leads nearer to 255, where an ACK of 255 is none. */
  lemma {:induction false} OddEnds(w: Writer, len: nat, acks: seq<byte>)
    requires AtBurstStart(w, len) && w.result.None? && w.initial == 0 && Frames(len) == 1 && w.seqNo % 2 == 1
    requires w.noAck < RETRIES && |acks| >= Distance(w.seqNo) + RETRIES - w.noAck
    ensures WriteOn(w, len, acks).result.Some?
    decreases |acks|
  {
    OneWait(w, len, acks);
    ConcludeForm(w, acks[0], 0, len);
    var v := Conclude(AfterFrames(w, w.toSend, len), acks[0], 0, len);
    if v.result.None? {
      if acks[0] != w.seqNo {
        if acks[0] != 255 {
          ConcludeMatch(w, acks[0], 0, len);
        }
        SentinelRestarts(w, len);
        DriftForm(1, Ahead(w.seqNo, 255));
        assert Ahead(w.seqNo, 255) > 0;
        DistanceShrinks(w.seqNo);
      }
      OddEnds(v, len, acks[1..]);
    }
  }

  /** Two frames behind 255: an ACK of 255 never matches an unused slot. */
  lemma {:induction false} TwoBehind255(w: Writer, len: nat, acks: seq<byte>)
    requires w.result.None? ==> AtBurstStart(w, len) && w.seqNo == 255 && Frames(len - w.initial) <= 2
    ensures SentinelFree(w, len, acks)
    decreases |acks|
  {
    if w.result.None? && acks != [] {
      OneWait(w, len, acks);
      if acks[0] != 255 {
        ConcludeMatch(w, acks[0], 0, len);
        if Ahead(255, acks[0]) < w.toSend {
          AckOfTwo(w, len, acks[0]);
        }
      }
      TwoBehind255(Conclude(AfterFrames(w, w.toSend, len), acks[0], 0, len), len, acks[1..]);
    }
  }

  lemma AckOfTwo(w: Writer, len: nat, ack: byte)
    requires AtBurstStart(w, len) && w.seqNo == 255 && Frames(len - w.initial) <= 2 && Ahead(255, ack) < w.toSend
    ensures PosAfter(w.initial, Ahead(255, ack) + 1, len) == len || Ahead(255, ack) == 0
  {
  }

  lemma CertainEnds(s: byte, len: nat, acks: seq<byte>)
    requires len > 0 && CertainToEnd(s, Frames(len)) && |acks| >= 130
    ensures WriteOn(Start(s, len), len, acks).result.Some?
  {
    if Frames(len) == 1 {
      OddEnds(Start(s, len), len, acks);
    } else {
      TwoBehind255(Start(s, len), len, acks);
      WriteTerminates(Start(s, len), len, acks);
    }
  }

  /** Exactly when an end is certain: there is a bound on the waits for every behaviour of the peer if and only
      if the write has one frame behind an odd number, or two behind 255. */
  lemma EndsExactly(s: byte, len: nat)
    requires len > 0
    ensures (exists n :: EndsWithin(s, len, n)) <==> CertainToEnd(s, Frames(len))
  {
    if CertainToEnd(s, Frames(len)) {
      forall acks: seq<byte> | |acks| >= 130
        ensures WriteOn(Start(s, len), len, acks).result.Some?
      {
        CertainEnds(s, len, acks);
      }
      assert EndsWithin(s, len, 130);
    } else {
      forall n
        ensures !EndsWithin(s, len, n)
      {
        var acks := NeverEnds(Start(s, len), len, n);
      }
    }
  }
}
