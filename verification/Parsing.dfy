/** ParserSerialiser: the byte-at-a-time parser and the escaping printer. */
module Parsing {
  import opened Bytes
  import opened Fletcher
  import opened Packets

  const ESCAPE: byte := 0xAA
  const FRAME_START: byte := 0xAB
  const FRAME_END: byte := 0xAC
  const BUFFER_CELLS := 256

  datatype MsgState = Start | Id | Size | Data | Check1 | Check2

  type Buffer = b: seq<byte> | |b| == BUFFER_CELLS witness seq(BUFFER_CELLS, i => 0)

  /** A value of the parser's fields. `accepted` and `handled` record, in order, the messages whose
      checksum matched and the packets passed to a handler. */
  datatype Parser = Parser(
    state: MsgState, stuff: bool, id: byte, size: byte, pos: byte, check: nat, buf: Buffer,
    accepted: seq<seq<byte>>, handled: seq<Packet>)
  {
    /** add_byte: `data_pos` is 8 bits wide. */
    function AddByte(c: byte): Parser {
      this.(buf := buf[pos := c], pos := (pos + 1) % 256)
    }

    /** check_checksum and read_data. */
    function Finish(): Parser {
      if size <= 253 && Checksum(buf[..size + 2]) == check then
        this.(accepted := accepted + [buf[..size + 2]],
              handled := handled + Handler(Decode(id, buf[2..2 + READ_ROOM])))
      else this
    }
  }

  function Handler(p: Option<Packet>): seq<Packet> {
    match p
    case None => []
    case Some(pack) => [pack]
  }

  predicate Delimiter(c: byte) {
    c == FRAME_START || c == FRAME_END
  }

  /** The switch of read. */
  function Absorb(p: Parser, c: byte): Parser {
    match p.state
    case Start => p.(pos := 0, state := if c == FRAME_START then Id else Start)
    case Id => if c >= NULL_PACK then p.(id := c, state := Start) else p.AddByte(c).(id := c, state := Size)
    case Size => p.AddByte(c).(size := c, state := if c == 0 then Check1 else Data)
    case Data =>
      var q := p.AddByte(c);
      if q.pos >= q.size + 2 then q.(state := Check1) else q
    case Check1 => p.(check := c, state := Check2)
    case Check2 => p.(check := p.check + 256 * c).Finish().(state := Start)
  }

  /** read. */
  function Step(p: Parser, c: byte): Parser {
    if c == ESCAPE && !p.stuff then p.(stuff := true)
    else Absorb(p.(state := if !p.stuff && Delimiter(c) then Start else p.state, stuff := false), c)
  }

  function Run(p: Parser, bs: seq<byte>): Parser
    decreases |bs|
  {
    if bs == [] then p else Run(Step(p, bs[0]), bs[1..])
  }

  /** Bytes may arrive in chunks of any sizes. */
  lemma {:induction false} RunAppend(p: Parser, a: seq<byte>, b: seq<byte>)
    ensures Run(p, a + b) == Run(Run(p, a), b)
    decreases |a|
  {
    if a == [] {
      assert a + b == b;
    } else {
      RunAppend(Step(p, a[0]), a[1..], b);
      assert (a + b)[1..] == a[1..] + b;
    }
  }

  /** send_byte's output. */
  function StuffByte(b: byte): seq<byte> {
    if ESCAPE <= b <= FRAME_END then [ESCAPE, b] else [b]
  }

  function Stuff(bs: seq<byte>): seq<byte> {
    if bs == [] then [] else Stuff(bs[..|bs| - 1]) + StuffByte(bs[|bs| - 1])
  }

  lemma Snoc(before: seq<byte>, m: seq<byte>, bs: seq<byte>, i: nat)
    requires i < |bs|
    ensures m + bs[..i + 1] == m + bs[..i] + [bs[i]]
    ensures before + Stuff(bs[..i + 1]) == before + Stuff(bs[..i]) + StuffByte(bs[i])
  {
    assert bs[..i + 1][..i] == bs[..i];
    Associates(before, Stuff(bs[..i]), StuffByte(bs[i]));
  }

  lemma Associates<T>(a: seq<T>, b: seq<T>, c: seq<T>)
    ensures a + b + c == a + (b + c)
  {
  }

  lemma SumSnoc(m: seq<byte>, b: byte)
    ensures Sum1(m + [b]) == (Sum1(m) + b) % 255 && Sum2(m + [b]) == (Sum2(m) + Sum1(m + [b])) % 255
  {
    assert (m + [b])[..|m|] == m;
  }

  lemma {:induction false} StuffAppend(a: seq<byte>, b: seq<byte>)
    ensures Stuff(a + b) == Stuff(a) + Stuff(b)
    decreases |b|
  {
    if b == [] {
      assert a + b == a;
    } else {
      StuffAppend(a, b[..|b| - 1]);
      assert (a + b)[..|a + b| - 1] == a + b[..|b| - 1];
    }
  }

  lemma SliceOfSlice<T>(s: seq<T>, a: nat, b: nat, c: nat, d: nat)
    requires a <= b <= |s| && c <= d <= b - a
    ensures s[a..b][c..d] == s[a + c..a + d]
  {
    var t, u := s[a..b][c..d], s[a + c..a + d];
    assert |t| == |u|;
    forall i | 0 <= i < |t|
      ensures t[i] == u[i]
    {
      assert s[a..b][c + i] == s[a + (c + i)];
    }
  }

  /** finish: the checksum, low byte first. */
  function ChecksumBytes(m: seq<byte>): seq<byte> {
    [Sum1(m), Sum2(m)]
  }

  /** Everything that sending `p` puts on the wire. */
  function Wire(p: Packet): seq<byte>
    requires p.Valid()
  {
    [FRAME_START] + Stuff(p.Message() + ChecksumBytes(p.Message())) + [FRAME_END]
  }

  lemma WireIs(before: seq<byte>, p: Packet)
    requires p.Valid()
    ensures before + [FRAME_START] + Stuff(p.Message()) + Stuff(ChecksumBytes(p.Message())) + [FRAME_END] ==
      before + Wire(p)
  {
    StuffAppend(p.Message(), ChecksumBytes(p.Message()));
    Concatenated(before, [FRAME_START], Stuff(p.Message()), Stuff(ChecksumBytes(p.Message())), [FRAME_END]);
  }

  lemma Concatenated<T>(a: seq<T>, b: seq<T>, c: seq<T>, d: seq<T>, e: seq<T>)
    ensures a + b + c + d + e == a + (b + (c + d) + e)
  {
  }

  /** How many of `bs` need an escape. */
  function Escapes(bs: seq<byte>): nat {
    if bs == [] then 0
    else Escapes(bs[..|bs| - 1]) + if ESCAPE <= bs[|bs| - 1] <= FRAME_END then 1 else 0
  }

  lemma {:induction false} StuffLength(bs: seq<byte>)
    ensures |Stuff(bs)| == |bs| + Escapes(bs)
  {
    if bs != [] {
      StuffLength(bs[..|bs| - 1]);
    }
  }

  lemma {:induction false} EscapesAppend(a: seq<byte>, b: seq<byte>)
    ensures Escapes(a + b) == Escapes(a) + Escapes(b)
    decreases |b|
  {
    if b == [] {
      assert a + b == a;
    } else {
      EscapesAppend(a, b[..|b| - 1]);
      assert (a + b)[..|a + b| - 1] == a + b[..|b| - 1];
    }
  }

  /** A frame is six bytes longer than its body, plus one for each escaped byte; the header is never
      escaped. */
  lemma WireLength(p: Packet)
    requires p.Valid()
    ensures |Wire(p)| == p.Size() + 6 + Escapes(p.Body() + ChecksumBytes(p.Message()))
  {
    var m := p.Message();
    var tail := p.Body() + ChecksumBytes(m);
    SizeIsBodyLength(p);
    StuffLength(m + ChecksumBytes(m));
    assert m + ChecksumBytes(m) == [p.Id(), p.Size()] + tail;
    EscapesAppend([p.Id(), p.Size()], tail);
    assert [p.Id(), p.Size()][..1] == [p.Id()];
    assert Escapes([p.Id()]) == 0;
    assert Escapes([p.Id(), p.Size()]) == 0;
  }

  /** read, step_checksum and the rest, on fields updated in place. `wire` collects what put was
      given; ghost arguments `m` are the bytes that the running sums cover. */
  class ParserSerialiser {
    var state: MsgState
    var stuffFlag: bool
    var sum1: nat
    var sum2: nat
    var msgId: byte
    var checksumIn: nat
    var dataLength: byte
    var dataPos: byte
    const dataBuf: array<byte>
    var wire: seq<byte>
    var handled: seq<Packet>
    ghost var accepted: seq<seq<byte>>

    ghost predicate Valid()
      reads this, dataBuf
    {
      && dataBuf.Length == BUFFER_CELLS
      && (state.Check1? || state.Check2? ==> dataLength <= 253)
    }

    ghost function View(): Parser
      reads this, dataBuf
      requires dataBuf.Length == BUFFER_CELLS
    {
      Parser(state, stuffFlag, msgId, dataLength, dataPos, checksumIn, dataBuf[..], accepted, handled)
    }

    constructor ()
      ensures Valid() && fresh(dataBuf)
      ensures View() == Parser(Start, false, 0, 0, 0, 0, dataBuf[..], [], []) && wire == []
    {
      state, stuffFlag, msgId, checksumIn, dataLength, dataPos := Start, false, 0, 0, 0, 0;
      sum1, sum2 := 0, 0;
      dataBuf := new byte[BUFFER_CELLS];
      wire, handled, accepted := [], [], [];
    }

    method AddByte(c: byte)
      requires Valid()
      modifies this`dataPos, dataBuf
      ensures Valid() && View() == old(View()).AddByte(c)
    {
      dataBuf[dataPos] := c;
      dataPos := (dataPos + 1) % 256;
    }

    method Read(c: byte)
      requires Valid()
      modifies this, dataBuf
      ensures Valid() && View() == Step(old(View()), c)
      ensures wire == old(wire)
    {
      if c == ESCAPE && !stuffFlag {
        stuffFlag := true;
      } else {
        if !stuffFlag {
          if c == FRAME_START || c == FRAME_END {
            state := Start;
          }
        }
        stuffFlag := false;
        Switch(c);
      }
    }

    /** The interface's read: all bytes that are available. */
    method ReadAvailable(bs: seq<byte>)
      requires Valid()
      modifies this, dataBuf
      ensures Valid() && View() == Run(old(View()), bs)
      ensures wire == old(wire)
    {
      for i := 0 to |bs|
        invariant Valid() && View() == Run(old(View()), bs[..i]) && wire == old(wire)
      {
        RunAppend(old(View()), bs[..i], [bs[i]]);
        assert bs[..i + 1] == bs[..i] + [bs[i]];
        assert Run(View(), [bs[i]]) == Run(Step(View(), bs[i]), []);
        Read(bs[i]);
      }
      assert bs[..|bs|] == bs;
    }

    method Switch(c: byte)
      requires Valid()
      modifies this, dataBuf
      ensures Valid() && View() == Absorb(old(View()), c)
      ensures wire == old(wire)
    {
      match state
      case Start =>
        dataPos := 0;
        if c == FRAME_START { state := Id; }
      case Id =>
        msgId := c;
        if msgId >= NULL_PACK {
          state := Start;
        } else {
          AddByte(c);
          state := Size;
        }
      case Size =>
        AddByte(c);
        dataLength := c;
        if dataLength == 0 { state := Check1; } else { state := Data; }
      case Data =>
        AddByte(c);
        if dataPos as int >= dataLength as int + 2 { state := Check1; }
      case Check1 =>
        checksumIn := c;
        state := Check2;
      case Check2 =>
        checksumIn := checksumIn + 256 * c;
        CheckMessage();
        state := Start;
    }

    method CheckMessage()
      requires Valid() && dataLength <= 253
      modifies this`handled, this`accepted
      ensures Valid() && View() == old(View()).Finish()
    {
      var cs := CheckSum(dataBuf, dataLength as int + 2);
      if cs == checksumIn {
        ReadData();
      }
    }

    /** from_bytes for a list, of which only 54 elements find room. */
    method ReadList(start: nat) returns (list: seq<byte>)
      requires dataBuf.Length == BUFFER_CELLS && start <= 6
      ensures |list| == if dataBuf[start] <= PAYLOAD_ROOM then dataBuf[start] else PAYLOAD_ROOM
      ensures list == dataBuf[start + 1..start + 1 + |list|]
    {
      var sz := dataBuf[start];
      var pos: nat := start + 1;
      list := [];
      for i := 0 to sz
        invariant pos == start + 1 + i && |list| == if i <= PAYLOAD_ROOM then i else PAYLOAD_ROOM
        invariant list == dataBuf[start + 1..start + 1 + |list|]
      {
        if |list| < PAYLOAD_ROOM {
          list := list + [dataBuf[pos]];
        }
        pos := pos + 1;
      }
    }

    /** from_bytes for an address field. */
    method ReadAddresses() returns (field: seq<byte>)
      requires dataBuf.Length == BUFFER_CELLS
      ensures field == dataBuf[2..2 + READ_ROOM][..ADDRESS_BYTES]
    {
      var pos: nat := 2;
      field := [];
      for i := 0 to ADDRESS_BYTES
        invariant pos == 2 + i && field == dataBuf[2..2 + READ_ROOM][..i]
      {
        field := field + [dataBuf[pos]];
        pos := pos + 1;
      }
    }

    /** from_bytes, field by field. */
    method ReadPacket() returns (pack: Option<Packet>)
      requires dataBuf.Length == BUFFER_CELLS
      ensures pack == Decode(msgId, dataBuf[2..2 + READ_ROOM])
    {
      var pos: nat := 2;
      pack := None;
      if msgId == 1 {
        pack := Some(GetAddrList(dataBuf[pos]));
      } else if msgId == 2 {
        var field := ReadAddresses();
        pack := Some(AddrList(field));
      } else if msgId == 3 {
        var token := Join(dataBuf[pos + 3], dataBuf[pos + 4]);
        pack := Some(Ping(dataBuf[pos], dataBuf[pos + 1], dataBuf[pos + 2], token));
      } else if msgId == 4 {
        var token := Join(dataBuf[pos + 3], dataBuf[pos + 4]);
        pack := Some(PingEcho(dataBuf[pos], dataBuf[pos + 1], dataBuf[pos + 2], token));
      } else if msgId == 5 {
        var payload := ReadList(6);
        SliceOfSlice(dataBuf[..], 2, 2 + READ_ROOM, 5, 5 + |payload|);
        assert dataBuf[..][2..2 + READ_ROOM] == dataBuf[2..2 + READ_ROOM] && dataBuf[..][7..7 + |payload|] == payload;
        pack := Some(Datagram(dataBuf[2], dataBuf[3], dataBuf[4], dataBuf[5], payload));
      } else if msgId == 6 {
        pack := Some(Subscribe(dataBuf[pos], dataBuf[pos + 1], dataBuf[pos + 2], dataBuf[pos + 3]));
      }
    }

    /** The handler of the message's kind gets the packet in the buffer. */
    method ReadData()
      requires Valid() && dataLength <= 253
      modifies this`handled, this`accepted
      ensures Valid()
      ensures accepted == old(accepted) + [dataBuf[..dataLength + 2]]
      ensures handled == old(handled) + Handler(Decode(msgId, dataBuf[2..2 + READ_ROOM]))
    {
      accepted := accepted + [dataBuf[..dataLength + 2]];
      var pack := ReadPacket();
      if pack.Some? {
        handled := handled + [pack.value];
      }
    }

    /** The sums cover `m` before the call and `m + [b]` after it. */
    method SendByte(b: byte, ghost m: seq<byte>)
      requires sum1 == Sum1(m) && sum2 == Sum2(m)
      modifies this`wire, this`sum1, this`sum2
      ensures wire == old(wire) + StuffByte(b)
      ensures sum1 == Sum1(m + [b]) && sum2 == Sum2(m + [b])
    {
      if ESCAPE <= b <= FRAME_END {
        wire := wire + [ESCAPE];
      }
      wire := wire + [b];
      sum1 := (sum1 + b) % 255;
      sum2 := (sum2 + sum1) % 255;
      SumSnoc(m, b);
    }

    /** to_bytes for a field of several bytes. */
    method SendBytes(bs: seq<byte>, ghost m: seq<byte>)
      requires sum1 == Sum1(m) && sum2 == Sum2(m)
      modifies this`wire, this`sum1, this`sum2
      ensures wire == old(wire) + Stuff(bs)
      ensures sum1 == Sum1(m + bs) && sum2 == Sum2(m + bs)
    {
      assert m + bs[..0] == m;
      for i := 0 to |bs|
        invariant wire == old(wire) + Stuff(bs[..i])
        invariant sum1 == Sum1(m + bs[..i]) && sum2 == Sum2(m + bs[..i])
      {
        SendByte(bs[i], m + bs[..i]);
        Snoc(old(wire), m, bs, i);
      }
      assert bs[..|bs|] == bs;
    }

    method SendFields(fields: seq<byte>, list: seq<byte>, ghost m: seq<byte>)
      requires sum1 == Sum1(m) && sum2 == Sum2(m)
      modifies this`wire, this`sum1, this`sum2
      ensures wire == old(wire) + Stuff(fields + list)
      ensures sum1 == Sum1(m + (fields + list)) && sum2 == Sum2(m + (fields + list))
    {
      SendBytes(fields, m);
      SendBytes(list, m + fields);
      StuffAppend(fields, list);
      Associates(m, fields, list);
      Associates(old(wire), Stuff(fields), Stuff(list));
    }

    /** The body of a packet: its fields in the order in which send writes them. */
    method SendBody(p: Packet, ghost m: seq<byte>)
      requires p.Valid()
      requires sum1 == Sum1(m) && sum2 == Sum2(m)
      modifies this`wire, this`sum1, this`sum2
      ensures wire == old(wire) + Stuff(p.Body())
      ensures sum1 == Sum1(m + p.Body()) && sum2 == Sum2(m + p.Body())
    {
      match p
      case GetAddrList(ttl) => SendBytes([ttl], m);
      case AddrList(field) => SendBytes(field, m);
      case Ping(ttl, source, dest, token) => SendBytes([ttl, source, dest, token % 256, token / 256], m);
      case PingEcho(ttl, source, dest, token) => SendBytes([ttl, source, dest, token % 256, token / 256], m);
      case Datagram(ttl, source, dest, port, payload) => SendFields([ttl, source, dest, port, |payload|], payload, m);
      case Subscribe(ttl, port, addr, subscribe) => SendBytes([ttl, port, addr, subscribe], m);
    }

    /** gen_header and the fields. */
    method SendMessage(p: Packet)
      requires p.Valid()
      modifies this`wire, this`sum1, this`sum2
      ensures wire == old(wire) + [FRAME_START] + Stuff(p.Message())
      ensures sum1 == Sum1(p.Message()) && sum2 == Sum2(p.Message())
    {
      sum1, sum2 := 0, 0;
      wire := wire + [FRAME_START];
      ghost var header, before := [p.Id(), p.Size()], wire;
      assert [] + header == header;
      SendBytes([p.Id(), p.Size()], []);
      SendBody(p, header);
      StuffAppend(header, p.Body());
      Associates(before, Stuff(header), Stuff(p.Body()));
    }

    /** send: the message, and finish. */
    method Send(p: Packet)
      requires p.Valid()
      modifies this`wire, this`sum1, this`sum2
      ensures wire == old(wire) + Wire(p)
    {
      ghost var m := p.Message();
      ghost var before := wire;
      SendMessage(p);
      var low, high := sum1, sum2;
      SendBytes([low, high], m);
      wire := wire + [FRAME_END];
      WireIs(before, p);
    }
  }
}
