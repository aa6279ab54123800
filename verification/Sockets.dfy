/** Interface: the list of bound sockets and the dispatch of datagrams. */
module Sockets {
  import opened Bytes

  const SOCKET_ROOM := 16
  const MULTICAST: byte := 0xFE
  const BROADCAST: byte := 0xFF

  predicate Distinct(ports: seq<byte>) {
    forall i, j | 0 <= i < j < |ports| :: ports[i] != ports[j]
  }

  /** All elements other than `p`, in order. */
  function Without(ports: seq<byte>, p: byte): (r: seq<byte>)
    ensures p !in r
    ensures forall q | q in r :: q in ports
  {
    if ports == [] then []
    else (if ports[0] == p then [] else [ports[0]]) + Without(ports[1..], p)
  }

  /** What unbind_socket's loop leaves when it stands at the head of `ports`: after a removal it steps
      over the element that moved into the gap. */
  function Swept(ports: seq<byte>, p: byte): seq<byte>
    decreases |ports|
  {
    if ports == [] then []
    else if ports[0] != p then [ports[0]] + Swept(ports[1..], p)
    else if |ports| == 1 then []
    else [ports[1]] + Swept(ports[2..], p)
  }

  /** The loop removes every match exactly when no two matches are neighbours. */
  lemma {:induction false} SweepComplete(ports: seq<byte>, p: byte)
    ensures Swept(ports, p) == Without(ports, p)
      <==> forall i | 0 <= i < |ports| - 1 :: !(ports[i] == ports[i + 1] == p)
    decreases |ports|
  {
    if ports == [] {
    } else if ports[0] != p {
      SweepComplete(ports[1..], p);
      var x, s, w := [ports[0]], Swept(ports[1..], p), Without(ports[1..], p);
      assert (x + s)[1..] == s && (x + w)[1..] == w;
      Neighbours(ports, 1, p);
    } else if |ports| > 1 {
      if ports[1] == p {
        assert Swept(ports, p)[0] == p;
        assert p !in Without(ports, p);
        assert ports[0] == ports[0 + 1] == p;
      } else {
        SweepComplete(ports[2..], p);
        var x, s, w := [ports[1]], Swept(ports[2..], p), Without(ports[2..], p);
        assert (x + s)[1..] == s && (x + w)[1..] == w;
        assert ports[1..][1..] == ports[2..];
        assert Without(ports, p) == Without(ports[1..], p) == x + w;
        Neighbours(ports, 2, p);
      }
    }
  }

  lemma Neighbours(ports: seq<byte>, d: nat, p: byte)
    requires d <= |ports| && forall i | 0 <= i < d && i + 1 < |ports| :: !(ports[i] == ports[i + 1] == p)
    ensures (forall i | 0 <= i < |ports| - 1 :: !(ports[i] == ports[i + 1] == p))
      <==> forall i | 0 <= i < |ports[d..]| - 1 :: !(ports[d..][i] == ports[d..][i + 1] == p)
  {
    if forall i | 0 <= i < |ports[d..]| - 1 :: !(ports[d..][i] == ports[d..][i + 1] == p) {
      forall i | 0 <= i < |ports| - 1
        ensures !(ports[i] == ports[i + 1] == p)
      {
        if i >= d {
          assert !(ports[d..][i - d] == ports[d..][i - d + 1] == p);
        }
      }
    }
  }

  lemma {:induction false} WithoutKeepsDistinct(ports: seq<byte>, p: byte)
    requires Distinct(ports)
    ensures Distinct(Without(ports, p))
  {
    if ports != [] {
      WithoutKeepsDistinct(ports[1..], p);
      if ports[0] != p {
        assert ports[0] !in ports[1..];
      }
    }
  }

  class Socket {
    const port: byte
    var remote: byte
    var ringbuf: seq<byte>
    var bound: bool

    constructor (port: byte)
      ensures this.port == port && remote == 0 && ringbuf == [] && !bound
    {
      this.port, remote, ringbuf, bound := port, 0, [], false;
    }

    /** Datagram's on_data. */
    method OnData(r: byte, data: seq<byte>)
      modifies this
      ensures remote == r && ringbuf == old(ringbuf) + data && bound == old(bound)
    {
      remote := r;
      for i := 0 to |data|
        invariant remote == r && bound == old(bound) && ringbuf == old(ringbuf) + data[..i]
      {
        ringbuf := ringbuf + [data[i]];
      }
      assert data[..|data|] == data;
    }
  }

  function Ports(sockets: seq<Socket>): (ports: seq<byte>)
    ensures |ports| == |sockets|
    ensures forall i | 0 <= i < |sockets| :: ports[i] == sockets[i].port
  {
    seq(|sockets|, i requires 0 <= i < |sockets| => sockets[i].port)
  }

  class Interface {
    const address: byte
    var sockets: seq<Socket>

    ghost predicate Valid()
      reads this
    {
      Distinct(Ports(sockets))
    }

    constructor (address: byte)
      ensures Valid() && sockets == [] && this.address == address
    {
      this.address, sockets := address, [];
    }

    /** Appending to the full list is taken to have no effect. */
    method Bind(socket: Socket) returns (ok: bool)
      requires Valid()
      modifies this`sockets, socket`bound
      ensures Valid()
      ensures ok <==> socket.port !in Ports(old(sockets))
      ensures sockets == if ok && |old(sockets)| < SOCKET_ROOM then old(sockets) + [socket] else old(sockets)
      ensures ok ==> socket.bound
      ensures Ports(sockets) == Apply(Ports(old(sockets)), BindPort(socket.port))
    {
      for i := 0 to |sockets|
        invariant forall j | 0 <= j < i :: sockets[j].port != socket.port
      {
        if sockets[i].port == socket.port {
          assert Ports(sockets)[i] == socket.port;
          return false;
        }
      }
      socket.bound := true;
      if |sockets| < SOCKET_ROOM {
        sockets := sockets + [socket];
        assert Ports(sockets) == Ports(old(sockets)) + [socket.port];
      }
      return true;
    }

    /** Removes while it iterates. */
    method UnbindSocket(s: Socket)
      requires Valid()
      modifies this`sockets
      ensures Valid()
      ensures Ports(sockets) == Without(Ports(old(sockets)), s.port)
      ensures Ports(sockets) == Apply(Ports(old(sockets)), UnbindPort(s.port))
      ensures forall t | t in sockets :: t in old(sockets)
    {
      var i := 0;
      ghost var before := Ports(sockets);
      ghost var done: seq<byte>, rest := [], before;
      while i < |sockets|
        invariant Ports(sockets) == done + rest
        invariant i == |done| || (rest == [] && i == |done| + 1)
        invariant done + Swept(rest, s.port) == Swept(before, s.port)
        invariant forall t | t in sockets :: t in old(sockets)
        decreases |rest|
      {
        ghost var now := Ports(sockets);
        assert now[i] == rest[0];
        SweepStep(done, rest, s.port);
        if sockets[i].port == s.port {
          PortsAfterRemoval(sockets, i);
          sockets := sockets[..i] + sockets[i + 1..];
          RemoveHead(done, rest);
          if |rest| > 1 {
            done, rest := done + [rest[1]], rest[2..];
          } else {
            rest := [];
          }
        } else {
          done, rest := done + [rest[0]], rest[1..];
        }
        i := i + 1;
      }
      SweepComplete(before, s.port);
      WithoutKeepsDistinct(before, s.port);
    }

    /** datagram_pack_handler, for sockets whose on_data is Datagram's: at most one socket hears the
        datagram, and its `remote` is overwritten before it does. */
    method DatagramHandler(dest: byte, source: byte, port: byte, payload: seq<byte>)
      requires Valid()
      modifies sockets
      ensures Valid() && sockets == old(sockets)
      ensures forall i | 0 <= i < |sockets| ::
        var heard := sockets[i].port == port && (dest == address || dest == BROADCAST || dest == MULTICAST);
        && sockets[i].ringbuf == old(sockets[i].ringbuf) + (if heard then payload else [])
        && sockets[i].remote == if heard then source else old(sockets[i].remote)
    {
      if dest == address || dest == BROADCAST || dest == MULTICAST {
        forall i, j | 0 <= i < j < |sockets|
          ensures sockets[i] != sockets[j]
        {
          assert Ports(sockets)[i] != Ports(sockets)[j];
        }
        for k := 0 to |sockets|
          invariant sockets == old(sockets)
          invariant forall i | 0 <= i < |sockets| ::
            var heard := i < k && sockets[i].port == port;
            && sockets[i].ringbuf == old(sockets[i].ringbuf) + (if heard then payload else [])
            && sockets[i].remote == if heard then source else old(sockets[i].remote)
        {
          var l := sockets[k];
          if l.port == port {
            l.remote := source;
            l.OnData(source, payload);
          }
        }
      }
    }
  }

  lemma PortsAfterRemoval(sockets: seq<Socket>, i: nat)
    requires i < |sockets|
    ensures Ports(sockets[..i] + sockets[i + 1..]) == Ports(sockets)[..i] + Ports(sockets)[i + 1..]
  {
  }

  lemma RemoveHead(done: seq<byte>, rest: seq<byte>)
    requires rest != []
    ensures var now := done + rest; var i := |done|;
      && now[..i] + now[i + 1..] == done + rest[1..]
      && (|rest| > 1 ==> done + rest[1..] == done + [rest[1]] + rest[2..])
      && (|rest| == 1 ==> done + rest[1..] == done)
  {
  }

  lemma SweepStep(done: seq<byte>, rest: seq<byte>, p: byte)
    requires rest != []
    ensures done + rest == done + [rest[0]] + rest[1..]
    ensures done + Swept(rest, p) ==
      if rest[0] != p then done + [rest[0]] + Swept(rest[1..], p)
      else if |rest| == 1 then done
      else done + [rest[1]] + Swept(rest[2..], p)
  {
  }

  datatype Op = BindPort(port: byte) | UnbindPort(port: byte)

  /** The effect of bind and unbind_socket on the ports. */
  function Apply(ports: seq<byte>, op: Op): seq<byte> {
    match op
    case BindPort(p) => if p !in ports && |ports| < SOCKET_ROOM then ports + [p] else ports
    case UnbindPort(p) => Swept(ports, p)
  }

  function ApplyAll(ports: seq<byte>, ops: seq<Op>): seq<byte> {
    if ops == [] then ports else Apply(ApplyAll(ports, ops[..|ops| - 1]), ops[|ops| - 1])
  }

  /** After any calls of bind and unbind_socket the bound ports are distinct, and unbinding really
      unbinds. */
  lemma {:induction false} PortsStayDistinct(ops: seq<Op>, p: byte)
    ensures Distinct(ApplyAll([], ops)) && |ApplyAll([], ops)| <= SOCKET_ROOM
    ensures p !in Apply(ApplyAll([], ops), UnbindPort(p))
  {
    if ops != [] {
      var n := |ops| - 1;
      var before := ApplyAll([], ops[..n]);
      PortsStayDistinct(ops[..n], p);
      if ops[n].UnbindPort? {
        SweepComplete(before, ops[n].port);
        WithoutKeepsDistinct(before, ops[n].port);
        WithoutShrinks(before, ops[n].port);
      }
    }
    SweepComplete(ApplyAll([], ops), p);
  }

  lemma {:induction false} WithoutShrinks(ports: seq<byte>, p: byte)
    ensures |Without(ports, p)| <= |ports|
  {
    if ports != [] {
      WithoutShrinks(ports[1..], p);
    }
  }
}
