/** The in-order receiver of an open connection: unwrapping the 8-bit numbers, and where a client
    differs from a server. */
module Receiving {
  import opened Bytes
  import opened Endpoints

  /** A frame with the unbounded number that its 8-bit one stands for. */
  datatype Frame = Frame(index: nat, bytes: seq<byte>)
  {
    function Wrapped(): Message {
      Data(index % 256, bytes)
    }
  }

  /** The ideal receiver, with unbounded numbers: the last index accepted, the bytes delivered, and the
      index that every answer acknowledges. */
  datatype Ideal = Ideal(last: nat, delivered: seq<byte>, acks: seq<nat>)

  function IdealStep(i: Ideal, f: Frame): Ideal {
    if f.index == i.last + 1 then Ideal(i.last + 1, i.delivered + f.bytes, i.acks + [i.last + 1])
    else Ideal(i.last, i.delivered, i.acks + [i.last])
  }

  function IdealRun(last: nat, fs: seq<Frame>): Ideal {
    if fs == [] then Ideal(last, [], []) else IdealStep(IdealRun(last, fs[..|fs| - 1]), fs[|fs| - 1])
  }

  /** Every frame arrives within 255 of the index expected then. */
  predicate InWindow(last: nat, fs: seq<Frame>) {
    fs == [] ||
    (var n := |fs| - 1;
     var next := IdealRun(last, fs[..n]).last + 1;
     InWindow(last, fs[..n]) && next - 255 <= fs[n].index <= next + 255)
  }

  function WrapFrames(fs: seq<Frame>): (ms: seq<Message>)
    ensures |ms| == |fs|
  {
    seq(|fs|, i requires 0 <= i < |fs| => fs[i].Wrapped())
  }

  function WrapAcks(acks: seq<nat>): (ms: seq<Message>)
    ensures |ms| == |acks|
  {
    seq(|acks|, i requires 0 <= i < |acks| => Ack(acks[i] % 256))
  }

  lemma SameInWindow(a: nat, b: nat)
    requires a - 255 <= b <= a + 255
    ensures a % 256 == b % 256 <==> a == b
  {
  }

  lemma NextWraps(n: nat)
    ensures Next(n % 256) == (n + 1) % 256
  {
  }

  /** `e`, moved on as the ideal receiver `i` says. */
  function Moved(e: Endpoint, i: Ideal): Act {
    Act(e.(remoteSeq := i.last % 256, ring := e.ring + i.delivered), WrapAcks(i.acks))
  }

  lemma UnwrapStep(e: Endpoint, i: Ideal, f: Frame)
    requires e.state.Open?
    requires i.last + 1 - 255 <= f.index <= i.last + 1 + 255
    ensures var before, after := Moved(e, i), Moved(e, IdealStep(i, f));
      var act := ServerTakes(before.ep, f.Wrapped());
      act.ep == after.ep && before.out + act.out == after.out
  {
    SameInWindow(i.last + 1, f.index);
    NextWraps(i.last);
    var now := IdealStep(i, f).last;
    assert WrapAcks(i.acks + [now]) == WrapAcks(i.acks) + [Ack(now % 256)];
    assert e.ring + i.delivered + f.bytes == e.ring + (i.delivered + f.bytes);
  }

  /** The 8-bit server does exactly what the ideal receiver does, as long as frames arrive within 255 of
      the expected index: it accepts a frame if and only if its index is the next one, it has delivered the
      accepted frames in order, and every answer acknowledges the last of them. */
  lemma {:induction false} ServerUnwraps(e: Endpoint, last: nat, fs: seq<Frame>)
    requires e.state.Open? && e.remoteSeq == last % 256 && InWindow(last, fs)
    ensures TakesAll(AsServer, e, WrapFrames(fs)) == Moved(e, IdealRun(last, fs))
  {
    if fs != [] {
      var n := |fs| - 1;
      ServerUnwraps(e, last, fs[..n]);
      UnwrapStep(e, IdealRun(last, fs[..n]), fs[n]);
      assert WrapFrames(fs)[..n] == WrapFrames(fs[..n]);
    } else {
      assert e.ring + [] == e.ring;
    }
  }

  /** The delivered bytes are those of the frames with indices `last + 1` to the last one accepted, each
      once and in order, if a frame's bytes are determined by its index. */
  lemma {:induction false} DeliveredInOrder(last: nat, fs: seq<Frame>, content: nat -> seq<byte>)
    requires forall k | 0 <= k < |fs| :: fs[k].bytes == content(fs[k].index)
    ensures var i := IdealRun(last, fs);
      i.last >= last && i.delivered == Concatenation(content, last, i.last)
  {
    if fs != [] {
      DeliveredInOrder(last, fs[..|fs| - 1], content);
    }
  }

  function Concatenation(content: nat -> seq<byte>, after: nat, upTo: nat): seq<byte>
    requires after <= upTo
    decreases upTo
  {
    if after == upTo then [] else Concatenation(content, after, upTo - 1) + content(upTo)
  }

  /** The window cannot be wider: 256 ahead of the expected frame, a wrong one is accepted in its place. */
  lemma AliasAccepted(e: Endpoint, last: nat, bytes: seq<byte>)
    requires e.state.Open? && e.remoteSeq == last % 256
    ensures ServerTakes(e, Frame(last + 1 + 256, bytes).Wrapped()).ep.ring == e.ring + bytes
    ensures IdealRun(last, [Frame(last + 1 + 256, bytes)]).delivered == []
  {
    NextWraps(last);
    assert (last + 1 + 256) % 256 == (last + 1) % 256;
    assert [Frame(last + 1 + 256, bytes)][..0] == [];
  }

  /** How many frames a server accepts from `ms`. */
  function Accepted(e: Endpoint, ms: seq<Message>): nat {
    if ms == [] then 0
    else
      var n := |ms| - 1;
      var f := TakesAll(AsServer, e, ms[..n]).ep;
      Accepted(e, ms[..n]) + if f.state.Open? && ms[n].Data? && ms[n].seqNo == Next(f.remoteSeq) then 1 else 0
  }

  /** The fields in which a client and a server that receive the same messages never differ, and the
      bytes, of which the client's are a prefix. */
  predicate Behind(c: Endpoint, s: Endpoint) {
    && c == s.(remoteSeq := c.remoteSeq, ring := c.ring)
    && c.ring <= s.ring
    && (c.remoteSeq == 255 || c == s)
  }

  lemma {:induction false} ServerOutputs(e: Endpoint, ms: seq<Message>)
    requires e.state.Open?
    ensures TakesAll(AsServer, e, ms).ep.state in {Open, Closed}
    ensures Accepted(e, ms) <= 255 - e.remoteSeq ==>
      TakesAll(AsServer, e, ms).ep.remoteSeq == e.remoteSeq + Accepted(e, ms)
  {
    if ms != [] {
      ServerOutputs(e, ms[..|ms| - 1]);
    }
  }

  /** A client does step for step what a server does on the same messages, exactly as long as the server
      has accepted no more frames than there are numbers up to 255; after that the client accepts nothing,
      and what it has delivered is a prefix. */
  lemma {:induction false} ClientSimulatesServer(e: Endpoint, ms: seq<Message>)
    requires e.state.Open?
    ensures var c, s := TakesAll(AsClient, e, ms), TakesAll(AsServer, e, ms);
      var same := Accepted(e, ms) <= 255 - e.remoteSeq;
      && Behind(c.ep, s.ep) && |c.out| == |s.out|
      && (same ==> c == s)
      && (!same ==> c.out != s.out && c.ep.remoteSeq == 255)
  {
    if ms != [] {
      var n := |ms| - 1;
      var c, s := TakesAll(AsClient, e, ms[..n]), TakesAll(AsServer, e, ms[..n]);
      ClientSimulatesServer(e, ms[..n]);
      ServerOutputs(e, ms[..n]);
      if c == s {
        SameStep(c.ep, ms[n]);
        if c.ep.remoteSeq == 255 {
          LastStep(c.ep, ms[n], c.out);
        }
      } else {
        StuckStep(c.ep, s.ep, ms[n]);
        DifferStays(c.out, s.out, ClientTakes(c.ep, ms[n]).out, ServerTakes(s.ep, ms[n]).out);
      }
    }
  }

  lemma SameStep(e: Endpoint, m: Message)
    requires e.state in {Open, Closed}
    ensures e.remoteSeq < 255 ==> ClientTakes(e, m) == ServerTakes(e, m)
  {
  }

  /** At 255 the two part at the first frame that the server accepts, and on nothing else. */
  lemma LastStep(e: Endpoint, m: Message, out: seq<Message>)
    requires e.state in {Open, Closed} && e.remoteSeq == 255
    ensures var c, s := ClientTakes(e, m), ServerTakes(e, m);
      && Behind(c.ep, s.ep) && |c.out| == |s.out| && c.ep.remoteSeq == 255
      && (if e.state.Open? && m.Data? && m.seqNo == 0 then out + c.out != out + s.out else c == s)
  {
    if e.state.Open? && m.Data? && m.seqNo == 0 {
      var c, s := ClientTakes(e, m), ServerTakes(e, m);
      assert (out + c.out)[|out|] == Ack(255) && (out + s.out)[|out|] == Ack(0);
    }
  }

  lemma StuckStep(c: Endpoint, s: Endpoint, m: Message)
    requires Behind(c, s) && c.remoteSeq == 255 && c.state in {Open, Closed}
    ensures Behind(ClientTakes(c, m).ep, ServerTakes(s, m).ep) && ClientTakes(c, m).ep.remoteSeq == 255
    ensures |ClientTakes(c, m).out| == |ServerTakes(s, m).out|
  {
  }

  lemma DifferStays<T>(a: seq<T>, b: seq<T>, x: seq<T>, y: seq<T>)
    requires |a| == |b| && a != b
    ensures a + x != b + y
  {
    assert (a + x)[..|a|] == a && (b + y)[..|b|] == b;
  }
}
