/** From one end to the other: the datagrams of one end, put on a serial line byte by byte and read there,
    are the messages that the other end takes. */
module Crossing {
  import opened Bytes
  import opened Packets
  import opened Endpoints
  import Parsing
  import RoundTrip
  import Sockets

  /** The datagram `d` carries the message `m` from `r`; its buffer may hold anything behind it. */
  predicate Bears(d: Incoming, r: byte, m: Message) {
    d.Valid() && d.source == r && d.len == |Encode(m)| && Encode(m) <= d.data
  }

  predicate Brings(ins: seq<Incoming>, r: byte, ms: seq<Message>) {
    |ins| == |ms| && forall i | 0 <= i < |ins| :: Bears(ins[i], r, ms[i])
  }

  lemma {:induction false} BringsValid(ins: seq<Incoming>, r: byte, ms: seq<Message>)
    requires Brings(ins, r, ms)
    ensures AllValid(ins)
  {
    forall i | 0 <= i < |ins|
      ensures ins[i].Valid()
    {
      assert Bears(ins[i], r, ms[i]);
    }
  }

  /** What taking messages never changes, and that only an open end answers. */
  lemma {:induction false} TakingKeeps(role: Role, e: Endpoint, ms: seq<Message>)
    ensures var act := TakesAll(role, e, ms);
      && act.ep.remote == e.remote && act.ep.port == e.port && act.ep.seqNo == e.seqNo
      && (!e.state.Listening? ==> act.ep.remotePort == e.remotePort && !act.ep.state.Listening?)
      && (act.out != [] ==> act.ep.state in {Open, Closed})
      && (e.state in {Open, Closed} ==> act.ep.state in {Open, Closed})
  {
    if ms != [] {
      TakingKeeps(role, e, ms[..|ms| - 1]);
    }
  }

  /** One datagram, whoever sent it: the handler of the end's own kind acts on the message, and the sender is
      the end's `remote` from then on. */
  lemma DatagramIsTaken(e: Endpoint, role: Role, d: Incoming, r: byte, m: Message)
    requires Bears(d, r, m)
    ensures Dispatch(e, role, d) == Takes(role, e.(remote := r), m)
  {
    HandlersTakeMessages(e, r, m, d.data);
  }

  lemma AnswersTogether(e: Endpoint, f: Endpoint, address: byte, a: seq<Message>, b: seq<Message>)
    requires e.remote == f.remote && (a != [] ==> e.remotePort == f.remotePort)
    ensures Packed(e, address, a) + Packed(f, address, b) == Packed(f, address, a + b)
  {
  }

  lemma OneMoreTaken(t: Trace, address: byte, role: Role, before: Act, d: Incoming, m: Message)
    requires Bears(d, before.ep.remote, m) && (before.out != [] ==> before.ep.state in {Open, Closed})
    ensures var u, act := t.Then(before, address), Takes(role, before.ep, m);
      u.Then(Dispatch(u.ep, role, d), address) == t.Then(Act(act.ep, before.out + act.out), address)
  {
    var act := Takes(role, before.ep, m);
    DatagramIsTaken(before.ep, role, d, before.ep.remote, m);
    assert before.ep.(remote := before.ep.remote) == before.ep;
    AnswersTogether(before.ep, act.ep, address, before.out, act.out);
    var a, b, c := t.sent, Packed(before.ep, address, before.out), Packed(act.ep, address, act.out);
    assert a + b + c == a + (b + c);
  }

  lemma {:induction false} SameRemote(t: Trace, address: byte, role: Role, ins: seq<Incoming>, ms: seq<Message>)
    requires Brings(ins, t.ep.remote, ms) && AllValid(ins)
    ensures ReadAll(t, address, role, ins) == t.Then(TakesAll(role, t.ep, ms), address)
  {
    if ins != [] {
      var n := |ins| - 1;
      SameRemote(t, address, role, ins[..n], ms[..n]);
      TakingKeeps(role, t.ep, ms[..n]);
      OneMoreTaken(t, address, role, TakesAll(role, t.ep, ms[..n]), ins[n], ms[n]);
    } else {
      assert t.sent + Packed(t.ep, address, []) == t.sent;
    }
  }

  /** The remote before a batch does not matter. */
  lemma {:induction false} FirstOverwrites(t: Trace, address: byte, role: Role, r: byte, ins: seq<Incoming>)
    requires AllValid(ins) && ins != [] && ins[0].source == r
    ensures ReadAll(t, address, role, ins) == ReadAll(t.(ep := t.ep.(remote := r)), address, role, ins)
  {
    if |ins| > 1 {
      FirstOverwrites(t, address, role, r, ins[..|ins| - 1]);
    } else {
      assert ins[..0] == [];
      assert t.ep.(remote := r).(remote := r) == t.ep.(remote := r);
    }
  }

  /** A batch of datagrams from `r`: the end takes the messages in them in order, with `r` as its remote, and
      sends exactly its answers, to `r`. */
  lemma BatchIsTaken(t: Trace, address: byte, role: Role, r: byte, ins: seq<Incoming>, ms: seq<Message>)
    requires Brings(ins, r, ms) && AllValid(ins) && (ins == [] ==> t.ep.remote == r)
    ensures ReadAll(t, address, role, ins) ==
      t.(ep := t.ep.(remote := r)).Then(TakesAll(role, t.ep.(remote := r), ms), address)
  {
    var u := t.(ep := t.ep.(remote := r));
    if ins != [] {
      assert Bears(ins[0], r, ms[0]);
      FirstOverwrites(t, address, role, r, ins);
    } else {
      assert u == t;
    }
    SameRemote(u, address, role, ins, ms);
  }

  /** datagram_pack_handler: whether a socket on `port` hears the packet `p` at an interface with `address`. */
  predicate Addressed(p: Packet, address: byte, port: byte) {
    && p.Datagram? && p.port == port
    && (p.dest == address || p.dest == Sockets.BROADCAST || p.dest == Sockets.MULTICAST)
  }

  /** What on_data gets of `p`. */
  predicate HeardAs(p: Packet, d: Incoming) {
    p.Datagram? && d.Valid() && d.source == p.source && d.len == |p.payload| && p.payload <= d.data
  }

  /** `ins` is what the socket on `port` hears of the packets `ps`, in order. */
  predicate Arrive(ps: seq<Packet>, address: byte, port: byte, ins: seq<Incoming>) {
    if ps == [] then ins == []
    else
      var n := |ps| - 1;
      if Addressed(ps[n], address, port) then
        ins != [] && HeardAs(ps[n], ins[|ins| - 1]) && Arrive(ps[..n], address, port, ins[..|ins| - 1])
      else Arrive(ps[..n], address, port, ins)
  }

  /** The datagrams of `e` go to `address` and `port`. */
  predicate Meant(e: Endpoint, address: byte, port: byte) {
    port == e.remotePort && (e.remote == address || e.remote == Sockets.BROADCAST || e.remote == Sockets.MULTICAST)
  }

  /** The ends to which the datagrams of `e` go hear all their messages, in order, as coming from `address`; any
      other end hears none. */
  lemma {:induction false} OnlyTheRemoteHears(e: Endpoint, address: byte, ms: seq<Message>, other: byte, port: byte,
                                              ins: seq<Incoming>)
    requires Arrive(Packed(e, address, ms), other, port, ins)
    ensures if Meant(e, other, port) then Brings(ins, address, ms) else ins == []
  {
    if ms != [] {
      var n, k := |ms| - 1, |ins| - 1;
      LastPacked(e, address, ms);
      if Meant(e, other, port) {
        OnlyTheRemoteHears(e, address, ms[..n], other, port, ins[..k]);
        BringsMore(ins, address, ms);
      } else {
        OnlyTheRemoteHears(e, address, ms[..n], other, port, ins);
      }
    }
  }

  lemma LastPacked(e: Endpoint, address: byte, ms: seq<Message>)
    requires ms != []
    ensures var n, ps := |ms| - 1, Packed(e, address, ms);
      ps[..n] == Packed(e, address, ms[..n]) && ps[n] == Datagram(6, address, e.remote, e.remotePort, Encode(ms[n]))
  {
  }

  lemma BringsMore(ins: seq<Incoming>, r: byte, ms: seq<Message>)
    requires ins != [] && ms != [] && Brings(ins[..|ins| - 1], r, ms[..|ms| - 1])
    requires Bears(ins[|ins| - 1], r, ms[|ms| - 1])
    ensures Brings(ins, r, ms)
  {
    forall i | 0 <= i < |ins|
      ensures Bears(ins[i], r, ms[i])
    {
      if i < |ins| - 1 {
        assert Bears(ins[..|ins| - 1][i], r, ms[..|ms| - 1][i]);
      }
    }
  }

  /** What a parser has passed to handlers since it was in the state `p`. */
  function HandledSince(p: Parsing.Parser, q: Parsing.Parser): seq<Packet> {
    if |p.handled| <= |q.handled| then q.handled[|p.handled|..] else []
  }

  /** The whole way, through both layers: the messages that `e` sends from `address`, as datagrams that are
      escaped and put on the wire byte by byte, are parsed at the end for which they are meant, dispatched, and
      taken there in order as messages from `address`. */
  lemma WholeWay(e: Endpoint, address: byte, ms: seq<Message>, p: Parsing.Parser, t: Trace, here: byte, role: Role,
                 ins: seq<Incoming>)
    requires RoundTrip.AllSendable(Packed(e, address, ms)) && (!p.stuff || p.state.Start?)
    requires Meant(e, here, t.ep.port) && (ms == [] ==> t.ep.remote == address)
    requires Arrive(HandledSince(p, Parsing.Run(p, RoundTrip.WireAll(Packed(e, address, ms)))), here, t.ep.port, ins)
    ensures AllValid(ins)
    ensures ReadAll(t, here, role, ins) ==
      t.(ep := t.ep.(remote := address)).Then(TakesAll(role, t.ep.(remote := address), ms), here)
  {
    var q := Parsing.Run(p, RoundTrip.WireAll(Packed(e, address, ms)));
    RoundTrip.StreamDelivers(p, Packed(e, address, ms));
    assert q.handled[|p.handled|..] == Packed(e, address, ms);
    OnlyTheRemoteHears(e, address, ms, here, t.ep.port, ins);
    BringsValid(ins, address, ms);
    BatchIsTaken(t, here, role, address, ins, ms);
  }

  /** Each end sends to the other, `c` at address `ca` and `s` at address `sa`. */
  predicate Paired(c: Endpoint, ca: byte, s: Endpoint, sa: byte) {
    && c.remote == sa && c.remotePort == s.port && s.remote == ca && s.remotePort == c.port
    && !c.state.Listening? && !s.state.Listening?
  }

  /** The SYN of connect(r, port) reaches the server that listens there, which then has the client's number,
      address and port; the two ends are paired. */
  lemma SynPairs(c: Endpoint, ca: byte, r: byte, port: byte, t: Trace, ins: seq<Incoming>)
    requires t.ep.state.Listening? && t.ep.port == port
    requires var act := ConnectBegin(c, r, port); Arrive(Packed(act.ep, ca, act.out), r, port, ins)
    ensures AllValid(ins)
    ensures var u := ReadAll(t, r, AsServer, ins);
      && u.sent == t.sent && Paired(ConnectBegin(c, r, port).ep, ca, u.ep, r)
      && u.ep == t.ep.(remote := ca, remotePort := c.port, remoteSeq := c.seqNo, state := SynRecved)
  {
    var act := ConnectBegin(c, r, port);
    var e := t.ep.(remote := ca);
    OnlyTheRemoteHears(act.ep, ca, act.out, r, port, ins);
    BringsValid(ins, ca, act.out);
    BatchIsTaken(t, r, AsServer, ca, ins, act.out);
    assert act.out[..0] == [] && TakesAll(AsServer, e, act.out).ep == ServerTakes(e, act.out[0]).ep;
  }

  /** Paired ends take each other's messages, answer each other, and stay paired. */
  lemma PairsTalk(e: Endpoint, ea: byte, t: Trace, address: byte, role: Role, ms: seq<Message>, ins: seq<Incoming>)
    requires Paired(e, ea, t.ep, address) && Arrive(Packed(e, ea, ms), address, t.ep.port, ins)
    ensures AllValid(ins)
    ensures var u := ReadAll(t, address, role, ins);
      u == t.Then(TakesAll(role, t.ep, ms), address) && Paired(e, ea, u.ep, address)
  {
    OnlyTheRemoteHears(e, ea, ms, address, t.ep.port, ins);
    BringsValid(ins, ea, ms);
    BatchIsTaken(t, address, role, ea, ins, ms);
    assert t.ep.(remote := ea) == t.ep;
    TakingKeeps(role, t.ep, ms);
  }
}
