/** What the parser accepts on arbitrary bytes: a two-phase batch specification that it refines. */
module Soundness {
  import opened Bytes
  import opened Fletcher
  import opened Packets
  import opened Parsing
  import opened RoundTrip

  /** A byte once escaping is undone, with the fact that it was escaped. */
  datatype Token = Token(value: byte, escaped: bool)

  /** Phase one. `pending` says that an escape precedes `bs`. */
  function Unescape(bs: seq<byte>, pending: bool): seq<Token>
    decreases |bs|
  {
    if bs == [] then []
    else if bs[0] == ESCAPE && !pending then Unescape(bs[1..], true)
    else [Token(bs[0], pending)] + Unescape(bs[1..], false)
  }

  predicate Delimits(t: Token) {
    !t.escaped && Delimiter(t.value)
  }

  /** How many tokens come before the first delimiter. */
  function PlainRun(ts: seq<Token>): (n: nat)
    ensures n <= |ts|
    ensures forall i | 0 <= i < n :: !Delimits(ts[i])
    ensures n < |ts| ==> Delimits(ts[n])
  {
    if ts == [] || Delimits(ts[0]) then 0 else 1 + PlainRun(ts[1..])
  }

  function Values(ts: seq<Token>): (vs: seq<byte>)
    ensures |vs| == |ts|
    ensures forall i | 0 <= i < |ts| :: vs[i] == ts[i].value
  {
    seq(|ts|, i requires 0 <= i < |ts| => ts[i].value)
  }

  /** How many tokens one attempt at a frame uses up, and the message it found. */
  datatype Attempt = Attempt(used: nat, found: Option<seq<byte>>)

  /** An attempt begins at a start token, which may be escaped. After it must come an id below 7, a
      size of at most 253, that many bytes and a checksum, none of them a delimiter; otherwise the
      attempt ends behind the id or at the next delimiter. */
  function TryFrame(ts: seq<Token>): (a: Attempt)
    requires ts != []
    ensures 0 < a.used <= |ts|
  {
    var n := PlainRun(ts[1..]);
    var vs := Values(ts[1..1 + n]);
    if n == 0 then Attempt(1, None)
    else if vs[0] >= NULL_PACK then Attempt(2, None)
    else if n == 1 || vs[1] > 253 || n < FrameSpan(vs[1]) then Attempt(1 + n, None)
    else
      var len := FrameSpan(vs[1]) - 2;
      Attempt(1 + FrameSpan(vs[1]), if Matches(vs[..len], vs[len], vs[len + 1]) then Some(vs[..len]) else None)
  }

  /** Id, size, body and checksum. */
  function FrameSpan(size: byte): int {
    2 + size + 2
  }

  function Found(a: Attempt): seq<seq<byte>> {
    match a.found
    case None => []
    case Some(m) => [m]
  }

  /** Phase two: the messages in a token sequence, one attempt after another. */
  function Scan(ts: seq<Token>): seq<seq<byte>>
    decreases |ts|
  {
    if ts == [] then []
    else if ts[0].value != FRAME_START then Scan(ts[1..])
    else Found(TryFrame(ts)) + Scan(ts[TryFrame(ts).used..])
  }

  predicate Matches(m: seq<byte>, low: byte, high: byte) {
    Checksum(m) == low + 256 * high
  }

  /** `ts[k..]` starts with a whole frame that carries `m`. */
  ghost predicate FrameAt(ts: seq<Token>, k: nat, m: seq<byte>) {
    && k + |m| + 3 <= |ts| && ts[k].value == FRAME_START
    && 2 <= |m| && m[0] < NULL_PACK && m[1] == |m| - 2
    && (forall i | k < i < k + |m| + 3 :: !Delimits(ts[i]))
    && Values(ts[k + 1..k + 1 + |m|]) == m
    && Matches(m, ts[k + |m| + 1].value, ts[k + |m| + 2].value)
  }

  lemma TryFrameIsSound(ts: seq<Token>)
    requires ts != [] && ts[0].value == FRAME_START
    ensures var a := TryFrame(ts); a.found.Some? ==> FrameAt(ts, 0, a.found.value)
  {
    var a, n := TryFrame(ts), PlainRun(ts[1..]);
    if a.found.Some? {
      var m := a.found.value;
      assert Values(ts[1..1 + |m|]) == m;
      forall i | 0 < i < |m| + 3
        ensures !Delimits(ts[i])
      {
        assert ts[i] == ts[1..][i - 1];
      }
    }
  }

  lemma FoundLater(ts: seq<Token>, m: seq<byte>) returns (used: nat)
    requires m in Scan(ts) && !(ts[0].value == FRAME_START && m in Found(TryFrame(ts)))
    ensures 0 < used <= |ts| && m in Scan(ts[used..])
  {
    used := if ts[0].value == FRAME_START then TryFrame(ts).used else 1;
  }

  /** Every message that the scan finds sits in the input as a frame with a matching checksum. */
  lemma {:induction false} ScanIsSound(ts: seq<Token>, m: seq<byte>) returns (k: nat)
    requires m in Scan(ts)
    ensures FrameAt(ts, k, m)
    decreases |ts|
  {
    if ts[0].value == FRAME_START && m in Found(TryFrame(ts)) {
      TryFrameIsSound(ts);
      k := 0;
    } else {
      var used := FoundLater(ts, m);
      k := ScanIsSound(ts[used..], m);
      FrameAtShift(ts, used, k, m);
      k := used + k;
    }
  }

  lemma FrameAtShift(ts: seq<Token>, d: nat, k: nat, m: seq<byte>)
    requires d <= |ts| && FrameAt(ts[d..], k, m)
    ensures FrameAt(ts, d + k, m)
  {
    assert ts[d..][k + 1..k + 1 + |m|] == ts[d + k + 1..d + k + 1 + |m|];
    forall i | d + k < i < d + k + |m| + 3
      ensures !Delimits(ts[i])
    {
      assert !Delimits(ts[d..][i - d]);
    }
  }

  /** The machine, fed with tokens. */
  function Take(p: Parser, t: Token): Parser {
    Absorb(p.(state := if Delimits(t) then Start else p.state, stuff := false), t.value)
  }

  function TakeAll(p: Parser, ts: seq<Token>): Parser
    decreases |ts|
  {
    if ts == [] then p else TakeAll(Take(p, ts[0]), ts[1..])
  }

  lemma {:induction false} TakeAppend(p: Parser, a: seq<Token>, b: seq<Token>)
    ensures TakeAll(p, a + b) == TakeAll(TakeAll(p, a), b)
    decreases |a|
  {
    if a == [] {
      assert a + b == b;
    } else {
      TakeAppend(Take(p, a[0]), a[1..], b);
      assert (a + b)[1..] == a[1..] + b;
    }
  }

  /** Bytes and their tokens have the same effect, up to an escape still pending at the end. */
  lemma {:induction false} RunIsTakeAll(p: Parser, bs: seq<byte>)
    ensures Run(p, bs).(stuff := false) == TakeAll(p.(stuff := false), Unescape(bs, p.stuff))
    decreases |bs|
  {
    if bs != [] {
      var q := Step(p, bs[0]);
      RunIsTakeAll(q, bs[1..]);
      if bs[0] == ESCAPE && !p.stuff {
        assert q.(stuff := false) == p.(stuff := false);
      } else {
        var t := Token(bs[0], p.stuff);
        assert Take(p.(stuff := false), t) == q;
        assert Unescape(bs, p.stuff)[1..] == Unescape(bs[1..], false);
      }
    }
  }

  lemma {:induction false} PlainTakes(p: Parser, ts: seq<Token>)
    requires !p.stuff && forall i | 0 <= i < |ts| :: !Delimits(ts[i])
    ensures TakeAll(p, ts) == AbsorbAll(p, Values(ts))
    ensures !AbsorbAll(p, Values(ts)).stuff
    decreases |ts|
  {
    if ts != [] {
      assert Values(ts)[1..] == Values(ts[1..]);
      assert Take(p, ts[0]) == Absorb(p, ts[0].value);
      PlainTakes(Take(p, ts[0]), ts[1..]);
    }
  }

  /** A size above 253 keeps the parser in the DATA state: `data_pos` is 8 bits wide. */
  lemma {:induction false} OversizedRun(p: Parser, vs: seq<byte>)
    requires p.state.Data? && p.size > 253
    ensures AbsorbAll(p, vs).accepted == p.accepted
    decreases |vs|
  {
    if vs != [] {
      OversizedRun(Absorb(p, vs[0]), vs[1..]);
    }
  }

  /** A message that breaks off is not accepted. */
  lemma PartialRun(p: Parser, vs: seq<byte>)
    requires p.state.Id? && p.pos == 0
    requires vs != [] && vs[0] < NULL_PACK
    requires |vs| == 1 || vs[1] > 253 || |vs| < FrameSpan(vs[1])
    ensures AbsorbAll(p, vs).accepted == p.accepted
  {
    var q := Absorb(p, vs[0]);
    if |vs| == 1 {
      assert vs[1..] == [];
    } else {
      HeaderRun(p, vs);
      var r := Absorb(q, vs[1]);
      var rest := vs[2..];
      if vs[1] > 253 {
        OversizedRun(r, rest);
      } else if |vs| < FrameSpan(vs[1]) - 1 {
        if vs[1] > 0 {
          DataRun(r, rest);
        } else {
          assert rest == [];
        }
      } else {
        var m := vs[..|vs| - 1];
        assert vs == m + [vs[|vs| - 1]];
        AbsorbAppend(p, m, [vs[|vs| - 1]]);
        MessageRun(p, m);
        var s := Loaded(p, m);
        assert AbsorbAll(s, [vs[|vs| - 1]]) == AbsorbAll(Absorb(s, vs[|vs| - 1]), []);
      }
    }
  }

  /** A whole message is accepted if its checksum matches. */
  lemma WholeRun(p: Parser, m: seq<byte>, low: byte, high: byte)
    requires p.state.Id? && p.pos == 0
    requires 2 <= |m| <= 255 && m[0] < NULL_PACK && m[1] == |m| - 2
    ensures var q := AbsorbAll(p, m + [low, high]);
      && q.state.Start?
      && q.accepted == p.accepted + (if Matches(m, low, high) then [m] else [])
      && (!Matches(m, low, high) ==> q.handled == p.handled)
  {
    AbsorbAppend(p, m, [low, high]);
    MessageRun(p, m);
    var q := Loaded(p, m);
    assert q.buf[..|m|] == m;
    var r := Absorb(q, low);
    assert [low, high][1..] == [high];
    assert AbsorbAll(q, [low, high]) == AbsorbAll(r, [high]) == AbsorbAll(Absorb(r, high), []);
  }

  /** Behind the start byte, tokens up to the next delimiter reach the machine as plain data. */
  lemma AttemptTakes(p: Parser, ts: seq<Token>, used: nat)
    requires !p.stuff && ts != [] && 1 <= used <= 1 + PlainRun(ts[1..]) && used <= |ts|
    ensures TakeAll(p, ts[..used]) == AbsorbAll(Take(p, ts[0]), Values(ts[1..used])) && !TakeAll(p, ts[..used]).stuff
    ensures Values(ts[1..used]) == Values(ts[1..1 + PlainRun(ts[1..])])[..used - 1]
  {
    var plain := ts[1..used];
    assert ts[..used][1..] == plain;
    forall i | 0 <= i < |plain|
      ensures !Delimits(plain[i])
    {
      assert plain[i] == ts[1..][i];
    }
    PlainTakes(Take(p, ts[0]), plain);
  }

  /** The machine does with an attempt's tokens what the attempt says. */
  lemma AttemptRun(p: Parser, ts: seq<Token>)
    requires !p.stuff && p.state.Start? && ts != [] && ts[0].value == FRAME_START
    ensures var a := TryFrame(ts); var q := TakeAll(p, ts[..a.used]);
      && q.accepted == p.accepted + Found(a) && !q.stuff
      && (q.state.Start? || a.used == |ts| || Delimits(ts[a.used]))
  {
    var a, n, q := TryFrame(ts), PlainRun(ts[1..]), Take(p, ts[0]);
    var vs, us := Values(ts[1..1 + n]), Values(ts[1..a.used]);
    AttemptTakes(p, ts, a.used);
    if n == 0 {
    } else if vs[0] >= NULL_PACK {
      assert us == [vs[0]];
      assert AbsorbAll(q, [vs[0]]) == AbsorbAll(Absorb(q, vs[0]), []);
    } else if n == 1 || vs[1] > 253 || n < FrameSpan(vs[1]) {
      assert us == vs;
      PartialRun(q, vs);
      assert a.used < |ts| ==> Delimits(ts[1..][n]);
    } else {
      var len := FrameSpan(vs[1]) - 2;
      assert us == vs[..len] + [vs[len], vs[len + 1]];
      WholeRun(q, vs[..len], vs[len], vs[len + 1]);
    }
  }

  lemma {:induction false} TakeAllScans(p: Parser, ts: seq<Token>)
    requires !p.stuff && (p.state.Start? || ts == [] || Delimits(ts[0]))
    ensures TakeAll(p, ts).accepted == p.accepted + Scan(ts)
    decreases |ts|
  {
    if ts != [] {
      var q := p.(state := Start);
      assert Take(p, ts[0]) == Take(q, ts[0]);
      if ts[0].value != FRAME_START {
        TakeAllScans(Take(q, ts[0]), ts[1..]);
      } else {
        var a := TryFrame(ts);
        var r := TakeAll(q, ts[..a.used]);
        AttemptRun(q, ts);
        TakeAppend(q, ts[..a.used], ts[a.used..]);
        assert ts[..a.used] + ts[a.used..] == ts;
        TakeAllScans(r, ts[a.used..]);
        Associates(p.accepted, Found(a), Scan(ts[a.used..]));
      }
    }
  }

  lemma ParserIsScan(buf: Buffer, bs: seq<byte>)
    ensures Run(Initial(buf), bs).accepted == Scan(Unescape(bs, false))
  {
    var p := Initial(buf);
    RunIsTakeAll(p, bs);
    TakeAllScans(p, Unescape(bs, false));
  }

  /** Chunk after chunk. */
  function RunChunks(p: Parser, chunks: seq<seq<byte>>): Parser
    decreases |chunks|
  {
    if chunks == [] then p else RunChunks(Run(p, chunks[0]), chunks[1..])
  }

  lemma {:induction false} ChunksJoin(p: Parser, chunks: seq<seq<byte>>)
    ensures RunChunks(p, chunks) == Run(p, Joined(chunks))
    decreases |chunks|
  {
    if chunks != [] {
      ChunksJoin(Run(p, chunks[0]), chunks[1..]);
      RunAppend(p, chunks[0], Joined(chunks[1..]));
    }
  }

  /** The incremental parser accepts, on any bytes in any chunks, exactly what the batch
      specification finds in the unescaped whole. */
  lemma ParserRefinesScan(buf: Buffer, chunks: seq<seq<byte>>)
    ensures RunChunks(Initial(buf), chunks).accepted == Scan(Unescape(Joined(chunks), false))
  {
    ChunksJoin(Initial(buf), chunks);
    ParserIsScan(buf, Joined(chunks));
  }

  /** Every message accepted from any chunks is a whole frame of the unescaped input. */
  lemma ParserIsSound(buf: Buffer, chunks: seq<seq<byte>>, m: seq<byte>) returns (k: nat)
    requires m in RunChunks(Initial(buf), chunks).accepted
    ensures FrameAt(Unescape(Joined(chunks), false), k, m)
  {
    ParserRefinesScan(buf, chunks);
    k := ScanIsSound(Unescape(Joined(chunks), false), m);
  }

  /** An accepted message that is as long as from_bytes needs. */
  predicate Complete(m: seq<byte>) {
    |m| >= 2 && Needed(m[0], m[2..]) <= |m| - 2
  }

  /** The packet in a complete message. */
  function PacketsIn(m: seq<byte>): seq<Packet>
    requires Complete(m)
  {
    var body := m[2..];
    var padded := if |body| >= READ_ROOM then body[..READ_ROOM] else body + seq(READ_ROOM - |body|, i => 0);
    Handler(Decode(m[0], padded))
  }

  function AllPackets(ms: seq<seq<byte>>): seq<Packet>
    requires forall m | m in ms :: Complete(m)
  {
    if ms == [] then [] else AllPackets(ms[..|ms| - 1]) + PacketsIn(ms[|ms| - 1])
  }

  ghost predicate AllComplete(ms: seq<seq<byte>>) {
    forall m | m in ms :: Complete(m)
  }

  /** The header of the message under way is in the buffer. */
  predicate HeaderStored(p: Parser) {
    match p.state
    case Start => true
    case Id => p.pos == 0
    case Size => p.pos == 1 && p.buf[0] == p.id
    case Data => p.size <= 253 ==> 2 <= p.pos < p.size + 2 && p.buf[0] == p.id
    case _ => p.size <= 253 && p.buf[0] == p.id
  }

  ghost predicate HandlersMatch(p: Parser) {
    && HeaderStored(p)
    && (AllComplete(p.accepted) ==> p.handled == AllPackets(p.accepted))
  }

  lemma FinishHandles(p: Parser)
    requires HandlersMatch(p) && p.state.Check2?
    ensures HandlersMatch(p.Finish().(state := Start))
  {
    var q := p.Finish();
    var m := p.buf[..p.size + 2];
    if q.accepted == p.accepted + [m] && AllComplete(q.accepted) {
      AllCompleteSplits(p.accepted, m);
      SamePacket(p, m);
    }
  }

  lemma AllCompleteSplits(ms: seq<seq<byte>>, m: seq<byte>)
    requires AllComplete(ms + [m])
    ensures AllComplete(ms) && Complete(m) && AllPackets(ms + [m]) == AllPackets(ms) + PacketsIn(m)
  {
    assert m in ms + [m] && (ms + [m])[..|ms|] == ms;
    forall a | a in ms
      ensures Complete(a)
    {
      assert a in ms + [m];
    }
  }

  lemma SamePacket(p: Parser, m: seq<byte>)
    requires p.size <= 253 && p.buf[0] == p.id && m == p.buf[..p.size + 2] && Complete(m)
    ensures Handler(Decode(p.id, p.buf[2..2 + READ_ROOM])) == PacketsIn(m)
  {
    var body := m[2..];
    var padded := if |body| >= READ_ROOM then body[..READ_ROOM] else body + seq(READ_ROOM - |body|, i => 0);
    forall i | 0 <= i < |body| && i < READ_ROOM
      ensures p.buf[2..2 + READ_ROOM][i] == body[i] == padded[i]
    {
    }
    DecodeIsLocal(p.id, body, p.buf[2..2 + READ_ROOM], padded);
  }

  lemma AbsorbKeepsHeader(p: Parser, c: byte)
    requires HeaderStored(p)
    ensures HeaderStored(Absorb(p, c))
    ensures !p.state.Check2? ==> Absorb(p, c).accepted == p.accepted && Absorb(p, c).handled == p.handled
  {
  }

  lemma StepHandles(p: Parser, c: byte)
    requires HandlersMatch(p)
    ensures HandlersMatch(Step(p, c))
  {
    if c != ESCAPE || p.stuff {
      var q := p.(state := if !p.stuff && Delimiter(c) then Start else p.state, stuff := false);
      assert HandlersMatch(q) && Step(p, c) == Absorb(q, c);
      if q.state.Check2? {
        FinishHandles(q.(check := q.check + 256 * c));
      } else {
        AbsorbKeepsHeader(q, c);
      }
    }
  }

  lemma {:induction false} RunHandles(p: Parser, bs: seq<byte>)
    requires HandlersMatch(p)
    ensures HandlersMatch(Run(p, bs))
    decreases |bs|
  {
    if bs != [] {
      StepHandles(p, bs[0]);
      RunHandles(Step(p, bs[0]), bs[1..]);
    }
  }

  /** While every accepted message is complete, handlers see exactly the packets in the accepted
      messages: no byte left over in the buffer from earlier ones matters. */
  lemma HandledPackets(buf: Buffer, bs: seq<byte>)
    ensures var ms := Scan(Unescape(bs, false));
      AllComplete(ms) ==> Run(Initial(buf), bs).handled == AllPackets(ms)
  {
    ParserIsScan(buf, bs);
    RunHandles(Initial(buf), bs);
  }

  /** A frame whose body was hit by a two-bit error on the way, in the serialised message before
      escaping, is dropped by the parser. */
  lemma TwoBitErrorDropped(p: Parser, pack: Packet, a: nat, b: nat)
    requires !p.stuff && pack.Valid()
    requires 16 <= a < 8 * |pack.Message()| && 16 <= b < 8 * |pack.Message()| && a != b
    ensures var m := pack.Message();
      var q := Run(p, [FRAME_START] + Stuff(FlipBit(FlipBit(m, a), b) + ChecksumBytes(m)) + [FRAME_END]);
      q.accepted == p.accepted && q.handled == p.handled
  {
    var m := pack.Message();
    var hit := FlipBit(FlipBit(m, a), b);
    SizeIsBodyLength(pack);
    assert hit[0] == m[0] && hit[1] == m[1];
    TwoBitError(m, a, b);
    WholeRun(Step(p, FRAME_START), hit, Sum1(m), Sum2(m));
    FramedRun(p, hit + ChecksumBytes(m));
  }
}
