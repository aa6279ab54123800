/** What the parser does with frames that the printer made. */
module RoundTrip {
  import opened Bytes
  import opened Fletcher
  import opened Packets
  import opened Parsing

  /** Data bytes: what read does with `bs` once escaping is undone. */
  function AbsorbAll(p: Parser, bs: seq<byte>): Parser
    decreases |bs|
  {
    if bs == [] then p else AbsorbAll(Absorb(p, bs[0]), bs[1..])
  }

  lemma {:induction false} AbsorbAppend(p: Parser, a: seq<byte>, b: seq<byte>)
    ensures AbsorbAll(p, a + b) == AbsorbAll(AbsorbAll(p, a), b)
    decreases |a|
  {
    if a == [] {
      assert a + b == b;
    } else {
      AbsorbAppend(Absorb(p, a[0]), a[1..], b);
      assert (a + b)[1..] == a[1..] + b;
    }
  }

  lemma RunStuffedByte(p: Parser, b: byte)
    requires !p.stuff
    ensures Run(p, StuffByte(b)) == Absorb(p, b)
    ensures !Absorb(p, b).stuff
  {
    if ESCAPE <= b <= FRAME_END {
      assert StuffByte(b)[1..] == [b];
      var q := Step(p, ESCAPE);
      assert q == p.(stuff := true);
      assert Step(q, b) == Absorb(p, b);
      assert Run(q, [b]) == Run(Step(q, b), []);
    } else {
      assert Run(p, [b]) == Run(Step(p, b), []);
    }
  }

  /** An escaped byte is always data, whatever the state. */
  lemma {:induction false} RunStuffed(p: Parser, bs: seq<byte>)
    requires !p.stuff
    ensures Run(p, Stuff(bs)) == AbsorbAll(p, bs)
    ensures !AbsorbAll(p, bs).stuff
    decreases |bs|
  {
    if bs != [] {
      var n := |bs| - 1;
      var q := AbsorbAll(p, bs[..n]);
      RunStuffed(p, bs[..n]);
      RunAppend(p, Stuff(bs[..n]), StuffByte(bs[n]));
      RunStuffedByte(q, bs[n]);
      AbsorbAppend(p, bs[..n], [bs[n]]);
      assert bs[..n] + [bs[n]] == bs;
      assert AbsorbAll(q, [bs[n]]) == AbsorbAll(Absorb(q, bs[n]), []);
    }
  }

  /** `buf` with `vs` written from cell `pos` on. */
  function Overlay(buf: Buffer, pos: nat, vs: seq<byte>): Buffer
    requires pos + |vs| <= BUFFER_CELLS
  {
    buf[..pos] + vs + buf[pos + |vs|..]
  }

  lemma OverlayStep(buf: Buffer, pos: nat, vs: seq<byte>)
    requires vs != [] && pos + |vs| <= BUFFER_CELLS
    ensures Overlay(buf[pos := vs[0]], pos + 1, vs[1..]) == Overlay(buf, pos, vs)
  {
  }

  /** `p` after storing `vs`, none of it beyond the end of the message. */
  function Filled(p: Parser, vs: seq<byte>): Parser
    requires p.pos + |vs| <= 255
  {
    p.(buf := Overlay(p.buf, p.pos, vs), pos := p.pos + |vs|,
       state := if p.pos + |vs| == p.size + 2 then Check1 else p.state)
  }

  lemma FilledNone(p: Parser)
    requires p.pos == p.size + 2 ==> p.state.Check1?
    ensures Filled(p, []) == p
  {
    assert Overlay(p.buf, p.pos, []) == p.buf;
  }

  lemma FilledStep(p: Parser, v: byte, vs: seq<byte>)
    requires p.state.Data? && 2 <= p.pos && p.pos + 1 + |vs| <= p.size + 2 <= 255
    ensures var q := Absorb(p, v);
      && q.pos == p.pos + 1 && q.size == p.size
      && q.state == (if q.pos == q.size + 2 then Check1 else Data)
      && Filled(q, vs) == Filled(p, [v] + vs)
  {
    OverlayStep(p.buf, p.pos, [v] + vs);
    assert ([v] + vs)[1..] == vs;
  }

  /** The DATA state stores bytes one after another until `size` of them are in. */
  lemma {:induction false} DataRun(p: Parser, vs: seq<byte>)
    requires p.state.Data? && 2 <= p.pos < p.size + 2 <= 255
    requires |vs| <= p.size + 2 - p.pos
    ensures AbsorbAll(p, vs) == Filled(p, vs)
    decreases |vs|
  {
    if vs == [] {
      FilledNone(p);
    } else {
      var q := Absorb(p, vs[0]);
      FilledStep(p, vs[0], vs[1..]);
      assert [vs[0]] + vs[1..] == vs;
      if |vs| > 1 {
        DataRun(q, vs[1..]);
      } else {
        FilledNone(q);
      }
    }
  }

  /** `p` with the whole message `m` in the buffer. */
  function Loaded(p: Parser, m: seq<byte>): Parser
    requires 2 <= |m| <= 255
  {
    p.(buf := Overlay(p.buf, 0, m), pos := |m|, state := Check1, id := m[0], size := m[1])
  }

  /** From the ID state, the header and a whole body leave exactly that message in the buffer. */
  lemma MessageRun(p: Parser, m: seq<byte>)
    requires p.state.Id? && p.pos == 0
    requires 2 <= |m| <= 255 && m[0] < NULL_PACK && m[1] == |m| - 2
    ensures AbsorbAll(p, m) == Loaded(p, m)
  {
    HeaderRun(p, m);
    var r := Absorb(Absorb(p, m[0]), m[1]);
    HeaderOverlay(p.buf, m);
    if m[1] > 0 {
      DataRun(r, m[2..]);
    } else {
      FilledNone(r);
      assert m[2..] == [];
    }
    assert AbsorbAll(p, m) == Filled(r, m[2..]) == Loaded(p, m);
  }

  lemma HeaderOverlay(buf: Buffer, m: seq<byte>)
    requires 2 <= |m| <= BUFFER_CELLS
    ensures Overlay(buf[0 := m[0]][1 := m[1]], 2, m[2..]) == Overlay(buf, 0, m)
  {
    OverlayStep(buf, 0, m);
    OverlayStep(buf[0 := m[0]], 1, m[1..]);
    assert m[1..][1..] == m[2..];
  }

  lemma IdByte(p: Parser, c: byte)
    requires p.state.Id? && p.pos == 0 && c < NULL_PACK
    ensures Absorb(p, c) == p.(buf := p.buf[0 := c], pos := 1, state := Size, id := c)
  {
  }

  lemma SizeByte(p: Parser, c: byte)
    requires p.state.Size? && p.pos == 1
    ensures Absorb(p, c) == p.(buf := p.buf[1 := c], pos := 2, state := if c == 0 then Check1 else Data, size := c)
  {
  }

  lemma HeaderRun(p: Parser, m: seq<byte>)
    requires p.state.Id? && p.pos == 0
    requires 2 <= |m| && m[0] < NULL_PACK
    ensures Absorb(Absorb(p, m[0]), m[1]) ==
      p.(buf := p.buf[0 := m[0]][1 := m[1]], pos := 2, state := if m[1] == 0 then Check1 else Data,
         id := m[0], size := m[1])
    ensures AbsorbAll(p, m) == AbsorbAll(Absorb(Absorb(p, m[0]), m[1]), m[2..])
  {
    IdByte(p, m[0]);
    SizeByte(Absorb(p, m[0]), m[1]);
    AbsorbTwo(p, m);
  }

  lemma AbsorbTwo(p: Parser, m: seq<byte>)
    requires 2 <= |m|
    ensures AbsorbAll(p, m) == AbsorbAll(Absorb(Absorb(p, m[0]), m[1]), m[2..])
  {
    assert m[1..][0] == m[1] && m[1..][1..] == m[2..];
    assert AbsorbAll(p, m) == AbsorbAll(Absorb(p, m[0]), m[1..]);
  }

  /** The two checksum bytes that the printer appends are accepted. */
  lemma ChecksumRun(p: Parser, m: seq<byte>)
    requires p.state.Check1? && 2 <= |m| <= 255 && p.size == |m| - 2 && p.buf[..|m|] == m
    ensures AbsorbAll(p, ChecksumBytes(m)) ==
      p.(check := Checksum(m), state := Start, accepted := p.accepted + [m],
         handled := p.handled + Handler(Decode(p.id, p.buf[2..2 + READ_ROOM])))
  {
    var cs := ChecksumBytes(m);
    assert Join(cs[0], cs[1]) == Checksum(m);
    AbsorbTwo(p, cs);
    assert cs[2..] == [];
  }

  lemma BodyInBuffer(buf: Buffer, header: seq<byte>, body: seq<byte>)
    requires |header| == 2 && |body| <= READ_ROOM
    ensures body <= Overlay(buf, 0, header + body)[2..2 + READ_ROOM]
  {
    var cells := Overlay(buf, 0, header + body);
    forall i | 0 <= i < |body|
      ensures cells[2..2 + READ_ROOM][i] == body[i]
    {
      assert cells[2 + i] == (header + body)[2 + i];
    }
  }

  /** From the ID state, the message of `pack` and its checksum deliver `pack`. */
  lemma PacketRun(p: Parser, pack: Packet)
    requires pack.Valid() && p.state.Id? && p.pos == 0
    ensures var q := AbsorbAll(p, pack.Message() + ChecksumBytes(pack.Message()));
      && q.state.Start? && q.stuff == p.stuff
      && q.accepted == p.accepted + [pack.Message()] && q.handled == p.handled + [pack]
  {
    var m := pack.Message();
    SizeIsBodyLength(pack);
    AbsorbAppend(p, m, ChecksumBytes(m));
    MessageRun(p, m);
    var q := Loaded(p, m);
    assert q.buf[..|m|] == m;
    ChecksumRun(q, m);
    BodyInBuffer(p.buf, [pack.Id(), pack.Size()], pack.Body());
    DecodeBody(pack, q.buf[2..2 + READ_ROOM]);
  }

  /** The tokens between a start and an end byte reach the state machine, whatever they are. */
  lemma FramedRun(p: Parser, ms: seq<byte>)
    ensures var q := Run(p, [FRAME_START] + Stuff(ms) + [FRAME_END]);
      q == Step(AbsorbAll(Step(p, FRAME_START), ms), FRAME_END) && !q.stuff && q.state.Start?
  {
    var q, wire := Step(p, FRAME_START), [FRAME_START] + Stuff(ms) + [FRAME_END];
    assert wire[0] == FRAME_START && wire[1..] == Stuff(ms) + [FRAME_END];
    RunAppend(q, Stuff(ms), [FRAME_END]);
    RunStuffed(q, ms);
    var r := AbsorbAll(q, ms);
    assert Run(r, [FRAME_END]) == Run(Step(r, FRAME_END), []);
  }

  lemma WireRun(p: Parser, pack: Packet)
    requires pack.Valid()
    ensures Run(p, Wire(pack))
      == Step(AbsorbAll(Step(p, FRAME_START), pack.Message() + ChecksumBytes(pack.Message())), FRAME_END)
    ensures !Run(p, Wire(pack)).stuff && Run(p, Wire(pack)).state.Start?
  {
    FramedRun(p, pack.Message() + ChecksumBytes(pack.Message()));
  }

  /** A frame delivers its packet, and nothing else, from any state whatever that is not in the middle
      of an escape, and from the START state even then. */
  lemma FrameDelivers(p: Parser, pack: Packet)
    requires pack.Valid() && (!p.stuff || p.state.Start?)
    ensures var q := Run(p, Wire(pack));
      && q.accepted == p.accepted + [pack.Message()] && q.handled == p.handled + [pack]
      && q.state.Start? && !q.stuff
  {
    WireRun(p, pack);
    PacketRun(Step(p, FRAME_START), pack);
  }

  predicate AllSendable(packs: seq<Packet>) {
    forall i | 0 <= i < |packs| :: packs[i].Valid()
  }

  /** The output of sending every packet of a list. */
  function WireAll(packs: seq<Packet>): seq<byte>
    requires AllSendable(packs)
  {
    if packs == [] then [] else Wire(packs[0]) + WireAll(packs[1..])
  }

  /** Whole-stream round trip: exactly the packets sent, in order. */
  lemma {:induction false} StreamDelivers(p: Parser, packs: seq<Packet>)
    requires AllSendable(packs) && (!p.stuff || p.state.Start?)
    ensures var q := Run(p, WireAll(packs));
      && q.handled == p.handled + packs
      && (packs != [] ==> q.state.Start? && !q.stuff)
    decreases |packs|
  {
    if packs != [] {
      var rest, q := packs[1..], Run(p, Wire(packs[0]));
      FrameDelivers(p, packs[0]);
      StreamDelivers(q, rest);
      RunAppend(p, Wire(packs[0]), WireAll(rest));
      Associates(p.handled, [packs[0]], rest);
      assert [packs[0]] + rest == packs;
    }
  }

  /** The state in which a ParserSerialiser is made, with any bytes in the buffer. */
  function Initial(buf: Buffer): Parser {
    Parser(Start, false, 0, 0, 0, 0, buf, [], [])
  }

  /** Serialisation is injective on packet lists. */
  lemma WireInjective(a: seq<Packet>, b: seq<Packet>)
    requires AllSendable(a) && AllSendable(b) && WireAll(a) == WireAll(b)
    ensures a == b
  {
    var p := Initial(seq(BUFFER_CELLS, i => 0));
    StreamDelivers(p, a);
    StreamDelivers(p, b);
    assert a == Run(p, WireAll(a)).handled;
  }

  /** Resynchronisation: whatever bytes came before, a run of frames loses at most its first packet;
      the rest is delivered once each, in order. The first is delivered too unless `noise` ended
      inside an escape and outside the START state. */
  lemma Resynchronises(p: Parser, noise: seq<byte>, packs: seq<Packet>)
    requires AllSendable(packs) && packs != []
    ensures var q := Run(p, noise);
      var first := Run(q, Wire(packs[0]));
      && Run(p, noise + WireAll(packs)).handled == first.handled + packs[1..]
      && q.handled <= first.handled
      && (!q.stuff || q.state.Start? ==> first.handled == q.handled + [packs[0]])
  {
    var q := Run(p, noise);
    RunAppend(p, noise, WireAll(packs));
    RunAppend(q, Wire(packs[0]), WireAll(packs[1..]));
    WireRun(q, packs[0]);
    StreamDelivers(Run(q, Wire(packs[0])), packs[1..]);
    LogGrows(q, Wire(packs[0]));
    if !q.stuff || q.state.Start? {
      FrameDelivers(q, packs[0]);
    }
  }

  lemma {:induction false} LogGrows(p: Parser, bs: seq<byte>)
    ensures p.handled <= Run(p, bs).handled
    decreases |bs|
  {
    if bs != [] {
      LogGrows(Step(p, bs[0]), bs[1..]);
    }
  }

  /** Throughout the run over `bs`, the write position stays inside the source's 64-byte buffer. */
  ghost predicate InBuffer(p: Parser, bs: seq<byte>) {
    forall k | 0 <= k <= |bs| :: Run(p, bs[..k]).pos <= 61
  }

  lemma InBufferAppend(p: Parser, a: seq<byte>, b: seq<byte>)
    requires InBuffer(p, a) && InBuffer(Run(p, a), b)
    ensures InBuffer(p, a + b)
  {
    forall k | 0 <= k <= |a + b|
      ensures Run(p, (a + b)[..k]).pos <= 61
    {
      if k <= |a| {
        assert (a + b)[..k] == a[..k];
      } else {
        assert (a + b)[..k] == a + b[..k - |a|];
        RunAppend(p, a, b[..k - |a|]);
      }
    }
  }

  lemma InBufferByte(p: Parser, c: byte)
    requires p.pos <= 61 && Step(p, c).pos <= 61
    ensures InBuffer(p, [c])
  {
    assert [c][..0] == [] && [c][..1] == [c];
    assert Run(p, [c]) == Run(Step(p, c), []);
  }

  lemma InBufferStuffedByte(p: Parser, b: byte)
    requires !p.stuff && p.pos <= 61 && Absorb(p, b).pos <= 61
    ensures InBuffer(p, StuffByte(b))
  {
    RunStuffedByte(p, b);
    if ESCAPE <= b <= FRAME_END {
      InBufferByte(p, ESCAPE);
      InBufferByte(Step(p, ESCAPE), b);
      assert Run(p, [ESCAPE]) == Run(Step(p, ESCAPE), []);
      InBufferAppend(p, [ESCAPE], [b]);
      assert [ESCAPE] + [b] == StuffByte(b);
    } else {
      InBufferByte(p, b);
    }
  }

  lemma {:induction false} InBufferStuffed(p: Parser, bs: seq<byte>)
    requires !p.stuff
    requires forall k | 0 <= k <= |bs| :: AbsorbAll(p, bs[..k]).pos <= 61
    ensures InBuffer(p, Stuff(bs))
    decreases |bs|
  {
    assert bs[..|bs|] == bs;
    assert AbsorbAll(p, bs[..0]) == p;
    if bs == [] {
      assert InBuffer(p, []);
    } else {
      var n := |bs| - 1;
      var q := AbsorbAll(p, bs[..n]);
      forall k | 0 <= k <= n
        ensures AbsorbAll(p, bs[..n][..k]).pos <= 61
      {
        assert bs[..n][..k] == bs[..k];
      }
      InBufferStuffed(p, bs[..n]);
      RunStuffed(p, bs[..n]);
      AbsorbAppend(p, bs[..n], [bs[n]]);
      assert bs[..n] + [bs[n]] == bs;
      assert AbsorbAll(q, [bs[n]]) == AbsorbAll(Absorb(q, bs[n]), []);
      InBufferStuffedByte(q, bs[n]);
      InBufferAppend(p, Stuff(bs[..n]), StuffByte(bs[n]));
    }
  }

  lemma {:induction false} PositionGrows(p: Parser, vs: seq<byte>)
    requires p.pos + |vs| <= 255
    ensures AbsorbAll(p, vs).pos <= p.pos + |vs|
    decreases |vs|
  {
    if vs != [] {
      var q := Absorb(p, vs[0]);
      assert q.pos <= p.pos + 1;
      PositionGrows(q, vs[1..]);
    }
  }

  lemma PositionInFrame(p: Parser, pack: Packet, k: nat)
    requires pack.Valid() && p.state.Id? && p.pos == 0
    requires k <= |pack.Message()| + 2
    ensures AbsorbAll(p, (pack.Message() + ChecksumBytes(pack.Message()))[..k]).pos <= 61
  {
    var m := pack.Message();
    var cs := ChecksumBytes(m);
    SizeIsBodyLength(pack);
    if k <= |m| {
      assert (m + cs)[..k] == m[..k];
      PositionGrows(p, m[..k]);
    } else {
      assert (m + cs)[..k] == m + cs[..k - |m|];
      AbsorbAppend(p, m, cs[..k - |m|]);
      MessageRun(p, m);
      CheckStatesStoreNothing(Loaded(p, m), cs[..k - |m|]);
    }
  }

  lemma CheckStatesStoreNothing(p: Parser, vs: seq<byte>)
    requires p.state.Check1? && |vs| <= 2
    ensures AbsorbAll(p, vs).pos == p.pos
  {
    if |vs| > 0 {
      var q := Absorb(p, vs[0]);
      if |vs| == 1 {
        assert vs[1..] == [];
      } else {
        assert vs[1..] == [vs[1]];
        assert AbsorbAll(q, [vs[1]]) == AbsorbAll(Absorb(q, vs[1]), []);
      }
    }
  }

  /** On any stream of serialised frames the 64-byte buffer is never overrun. */
  lemma {:induction false} FramesStayInBuffer(p: Parser, packs: seq<Packet>)
    requires AllSendable(packs) && !p.stuff && p.pos <= 61
    ensures InBuffer(p, WireAll(packs))
    decreases |packs|
  {
    if packs == [] {
      assert WireAll(packs) == [];
    } else {
      FrameStaysInBuffer(p, packs[0]);
      WireRun(p, packs[0]);
      FramesStayInBuffer(Run(p, Wire(packs[0])), packs[1..]);
      InBufferAppend(p, Wire(packs[0]), WireAll(packs[1..]));
    }
  }

  lemma FrameStaysInBuffer(p: Parser, pack: Packet)
    requires pack.Valid() && !p.stuff && p.pos <= 61
    ensures InBuffer(p, Wire(pack)) && Run(p, Wire(pack)).pos <= 61
  {
    var ms := pack.Message() + ChecksumBytes(pack.Message());
    var q := Step(p, FRAME_START);
    InBufferByte(p, FRAME_START);
    assert Run(p, [FRAME_START]) == Run(q, []);
    forall k | 0 <= k <= |ms|
      ensures AbsorbAll(q, ms[..k]).pos <= 61
    {
      PositionInFrame(q, pack, k);
    }
    InBufferStuffed(q, ms);
    RunStuffed(q, ms);
    assert ms[..|ms|] == ms;
    InBufferAppend(p, [FRAME_START], Stuff(ms));
    RunAppend(p, [FRAME_START], Stuff(ms));
    var r := AbsorbAll(q, ms);
    InBufferByte(r, FRAME_END);
    InBufferAppend(p, [FRAME_START] + Stuff(ms), [FRAME_END]);
    assert Wire(pack)[..|Wire(pack)|] == Wire(pack);
  }
}
