/** The six packet kinds, the bytes each one sends, and how from_bytes reads them back. */
module Packets {
  import opened Bytes

  type word = x: int | 0 <= x < 65536

  datatype Packet =
    | GetAddrList(ttl: byte)
    | AddrList(field: seq<byte>)
    | Ping(ttl: byte, source: byte, dest: byte, token: word)
    | PingEcho(ttl: byte, source: byte, dest: byte, token: word)
    | Datagram(ttl: byte, source: byte, dest: byte, port: byte, payload: seq<byte>)
    | Subscribe(ttl: byte, port: byte, addr: byte, subscribe: byte)
  {
    /** An address field has 32 bytes; a payload is a list with room for 54. */
    predicate Valid() {
      match this
      case AddrList(field) => |field| == 32
      case Datagram(_, _, _, _, payload) => |payload| <= PAYLOAD_ROOM
      case _ => true
    }

    /** get_id. */
    function Id(): byte {
      match this
      case GetAddrList(_) => 1
      case AddrList(_) => 2
      case Ping(_, _, _, _) => 3
      case PingEcho(_, _, _, _) => 4
      case Datagram(_, _, _, _, _) => 5
      case Subscribe(_, _, _, _) => 6
    }

    /** size. */
    function Size(): byte
      requires Valid()
    {
      match this
      case GetAddrList(_) => 1
      case AddrList(_) => 32
      case Ping(_, _, _, _) => 5
      case PingEcho(_, _, _, _) => 5
      case Datagram(_, _, _, _, payload) => 4 + |payload| + 1
      case Subscribe(_, _, _, _) => 4
    }

    /** The bytes that send puts between the header and the checksum. */
    function Body(): seq<byte>
      requires Valid()
    {
      match this
      case GetAddrList(ttl) => [ttl]
      case AddrList(field) => field
      case Ping(ttl, source, dest, token) => [ttl, source, dest, token % 256, token / 256]
      case PingEcho(ttl, source, dest, token) => [ttl, source, dest, token % 256, token / 256]
      case Datagram(ttl, source, dest, port, payload) => [ttl, source, dest, port, |payload|] + payload
      case Subscribe(ttl, port, addr, subscribe) => [ttl, port, addr, subscribe]
    }

    /** What the checksum covers: id, size and body. */
    function Message(): seq<byte>
      requires Valid()
    {
      [Id(), Size()] + Body()
    }
  }

  const PAYLOAD_ROOM := 54
  const NULL_PACK := 7
  const ADDRESS_BYTES := 32

  /** A little-endian `uint16`. */
  function Join(low: int, high: int): int {
    low + 256 * high
  }

  /** How many of the bytes after the header from_bytes can touch with effect. */
  const READ_ROOM := 59

  /** read_data: the packet that from_bytes builds from the bytes after the header, if `id` has a
      handler. Appending to a full list is taken to have no effect. */
  function Decode(id: byte, b: seq<byte>): Option<Packet>
    requires |b| == READ_ROOM
  {
    if id == 1 then Some(GetAddrList(b[0]))
    else if id == 2 then Some(AddrList(b[..ADDRESS_BYTES]))
    else if id == 3 then Some(Ping(b[0], b[1], b[2], Join(b[3], b[4])))
    else if id == 4 then Some(PingEcho(b[0], b[1], b[2], Join(b[3], b[4])))
    else if id == 5 then
      var n := if b[4] <= PAYLOAD_ROOM then b[4] else PAYLOAD_ROOM;
      Some(Datagram(b[0], b[1], b[2], b[3], b[5..5 + n]))
    else if id == 6 then Some(Subscribe(b[0], b[1], b[2], b[3]))
    else None
  }

  /** How many bytes after the header the packet decoded from `b` depends on. */
  function Needed(id: byte, b: seq<byte>): nat {
    if id == 1 then 1
    else if id == 2 then ADDRESS_BYTES
    else if id == 3 || id == 4 then 5
    else if id == 5 then
      if |b| < 5 then 5 else if b[4] <= PAYLOAD_ROOM then 5 + b[4] else READ_ROOM
    else if id == 6 then 4
    else 0
  }

  /** `size()` is the number of body bytes, and at most 59. */
  lemma SizeIsBodyLength(p: Packet)
    requires p.Valid()
    ensures |p.Body()| == p.Size() <= READ_ROOM
    ensures |p.Message()| == p.Size() + 2 <= 61
  {
  }

  /** from_bytes undoes the field codecs, whatever follows the body in the buffer. */
  lemma DecodeBody(p: Packet, b: seq<byte>)
    requires p.Valid() && |b| == READ_ROOM && p.Body() <= b
    ensures Decode(p.Id(), b) == Some(p)
  {
    var body := p.Body();
    assert forall i | 0 <= i < |body| :: b[i] == body[i];
    match p
    case AddrList(field) => assert b[..ADDRESS_BYTES] == field;
    case Datagram(_, _, _, _, payload) => assert b[5..5 + |payload|] == payload;
    case _ =>
  }

  /** A decoded packet depends on no byte beyond the ones it needs. */
  lemma DecodeIsLocal(id: byte, body: seq<byte>, b: seq<byte>, c: seq<byte>)
    requires |b| == |c| == READ_ROOM
    requires Needed(id, body) <= |body|
    requires forall i | 0 <= i < |body| && i < READ_ROOM :: b[i] == c[i] == body[i]
    ensures Decode(id, b) == Decode(id, c)
  {
    if id == 2 {
      assert b[..ADDRESS_BYTES] == c[..ADDRESS_BYTES];
    } else if id == 5 {
      var n := if b[4] <= PAYLOAD_ROOM then b[4] else PAYLOAD_ROOM;
      assert b[5..5 + n] == c[5..5 + n];
    }
  }
}
