/** When bytes that earlier messages have left in the buffer reach a handler. */
module StaleBytes {
  import opened Bytes
  import opened Packets
  import opened Parsing
  import opened RoundTrip
  import opened Soundness

  /** A whole message: its size byte counts the bytes behind the header. */
  predicate Whole(m: seq<byte>) {
    2 <= |m| <= 255 && m[0] < NULL_PACK && m[1] == |m| - 2
  }

  /** The frame of a message with its right checksum, whatever the size of its packet kind. */
  function FrameOf(m: seq<byte>): seq<byte>
    requires Whole(m)
  {
    [FRAME_START] + Stuff(m + ChecksumBytes(m)) + [FRAME_END]
  }

  /** What handlers see of it when `buf` is what the buffer holds before. */
  function Handled(buf: Buffer, m: seq<byte>): seq<Packet>
    requires Whole(m)
  {
    Run(Initial(buf), FrameOf(m)).handled
  }

  lemma FrameHandled(buf: Buffer, m: seq<byte>)
    requires Whole(m)
    ensures Handled(buf, m) == Handler(Decode(m[0], Overlay(buf, 0, m)[2..2 + READ_ROOM]))
  {
    var q := Step(Initial(buf), FRAME_START);
    FramedRun(Initial(buf), m + ChecksumBytes(m));
    AbsorbAppend(q, m, ChecksumBytes(m));
    MessageRun(q, m);
    assert Loaded(q, m).buf[..|m|] == m;
    ChecksumRun(Loaded(q, m), m);
  }

  /** A buffer that holds zeros, but `v` in cell `i`. */
  function Cell(i: nat, v: byte): Buffer {
    seq(BUFFER_CELLS, j requires 0 <= j < BUFFER_CELLS => if j == i then v else 0)
  }

  /** The first byte behind an incomplete body tells two packets apart. */
  lemma NextByteTells(id: byte, body: seq<byte>, b: seq<byte>, c: seq<byte>)
    requires |b| == |c| == READ_ROOM && body <= b && body <= c && |body| < Needed(id, body) && id < NULL_PACK
    requires b[|body|] == 0 && c[|body|] == 1
    ensures Handler(Decode(id, b)) != Handler(Decode(id, c))
  {
    assert forall i | 0 <= i < |body| :: b[i] == body[i] == c[i];
    var d, e := Decode(id, b), Decode(id, c);
    if id == 2 {
      assert d.value.field[|body|] != e.value.field[|body|];
    } else if id == 5 && |body| >= 5 {
      assert d.value.payload[|body| - 5] != e.value.payload[|body| - 5];
    }
  }

  lemma NextCell(m: seq<byte>, v: byte)
    requires 2 <= |m| < READ_ROOM + 2
    ensures var b := Overlay(Cell(|m|, v), 0, m)[2..2 + READ_ROOM]; m[2..] <= b && b[|m| - 2] == v
  {
    var cells := Overlay(Cell(|m|, v), 0, m);
    BodyInBuffer(Cell(|m|, v), m[..2], m[2..]);
    assert m[..2] + m[2..] == m;
    assert cells[2..2 + READ_ROOM][|m| - 2] == cells[|m|] == Cell(|m|, v)[|m|];
  }

  lemma CompleteHidesBuffer(m: seq<byte>, b: Buffer, c: Buffer)
    requires Whole(m) && Complete(m)
    ensures Handled(b, m) == Handled(c, m)
  {
    FrameHandled(b, m);
    FrameHandled(c, m);
    var body, x, y := m[2..], Overlay(b, 0, m)[2..2 + READ_ROOM], Overlay(c, 0, m)[2..2 + READ_ROOM];
    forall i | 0 <= i < |body| && i < READ_ROOM
      ensures x[i] == y[i] == body[i]
    {
    }
    DecodeIsLocal(m[0], body, x, y);
  }

  lemma IncompleteShowsBuffer(m: seq<byte>)
    requires Whole(m) && !Complete(m)
    ensures Handled(Cell(|m|, 0), m) != Handled(Cell(|m|, 1), m)
  {
    FrameHandled(Cell(|m|, 0), m);
    FrameHandled(Cell(|m|, 1), m);
    NextCell(m, 0);
    NextCell(m, 1);
    var b, c := Overlay(Cell(|m|, 0), 0, m), Overlay(Cell(|m|, 1), 0, m);
    NextByteTells(m[0], m[2..], b[2..2 + READ_ROOM], c[2..2 + READ_ROOM]);
  }

  /** Exactly when no stale byte matters: handlers see the same of a message with a right checksum whatever
      the buffer held before, if and only if the message is as long as its kind needs. */
  lemma StaleBytesExactly(m: seq<byte>)
    requires Whole(m)
    ensures (forall b: Buffer, c: Buffer :: Handled(b, m) == Handled(c, m)) <==> Complete(m)
  {
    if Complete(m) {
      forall b: Buffer, c: Buffer
        ensures Handled(b, m) == Handled(c, m)
      {
        CompleteHidesBuffer(m, b, c);
      }
    } else {
      IncompleteShowsBuffer(m);
    }
  }
}
