/** One end by itself. In every run of the two ends of module Duplex, an end goes on from what it does and
    hears alone, and says the same, whatever the other end does and whatever is lost. */
module Sides {
  import opened Bytes
  import opened Endpoints
  import opened Links
  import opened Writing
  import opened Handshake
  import opened Duplex

  /** What an end does, and what it hears. */
  datatype Deed = Hear(m: Message) | Do(move: Move)

  predicate Own(role: Role, m: Move) {
    match m
    case Shake(step) => if role.AsServer? then ServerCall(step) else ClientCall(step)
    case ClientWrite(_) => role.AsClient?
    case ClientSend => role.AsClient?
    case ClientEndWait => role.AsClient?
    case ServerWrite(_) => role.AsServer?
    case ServerSend => role.AsServer?
    case ServerEndWait => role.AsServer?
  }

  function Delivery(role: Role): Move {
    Shake(if role.AsServer? then DeliverUp else DeliverDown)
  }

  /** All that an end goes on from, and the port that a client connects to. */
  datatype Side = Side(ep: Endpoint, running: bool, call: Option<Call>, target: byte)

  function SideOf(role: Role, x: Both): Side {
    match role
    case AsServer => Side(x.h.s, x.h.accepting, x.server, 0)
    case AsClient => Side(x.h.c, x.h.connecting, x.client, x.h.s.port)
  }

  function End(role: Role, x: Both): Endpoint {
    SideOf(role, x).ep
  }

  /** The messages on the way to the end and from it. */
  function Inbox(role: Role, x: Both): seq<Message> {
    if role.AsServer? then Messages(x.h.up) else x.h.down
  }

  function Outbox(role: Role, x: Both): seq<Message> {
    if role.AsServer? then x.h.down else Messages(x.h.up)
  }

  /** The message `m` alone is on the way to the end. */
  function Reaching(role: Role, x: Both, m: Message): Both {
    match role
    case AsServer => x.(h := x.h.(up := [Tagged(0, m)]))
    case AsClient => x.(h := x.h.(down := [m]))
  }

  /** The end alone: it hears what it is said to hear, and what it says stays on its link. */
  function Alone(role: Role, x: Both, d: Deed): Both {
    match d
    case Hear(m) => Proceed(Reaching(role, x, m), Delivery(role))
    case Do(move) => Proceed(x, move)
  }

  function AloneAll(role: Role, x: Both, ds: seq<Deed>): Both {
    if ds == [] then x else Alone(role, AloneAll(role, x, ds[..|ds| - 1]), ds[|ds| - 1])
  }

  /** What a move of the two ends is to the end. */
  function DeedOf(role: Role, x: Both, m: Move): seq<Deed> {
    if m == Delivery(role) && Inbox(role, x) != [] then [Hear(Inbox(role, x)[0])]
    else if Own(role, m) then [Do(m)]
    else []
  }

  function Deeds(role: Role, x: Both, ms: seq<Move>): seq<Deed> {
    if ms == [] then []
    else
      var n := |ms| - 1;
      Deeds(role, x, ms[..n]) + DeedOf(role, ProceedAll(x, ms[..n]), ms[n])
  }

  /** What the end says in a move, and in a run. */
  function SaidIn(role: Role, x: Both, m: Move): seq<Message> {
    var y := Proceed(x, m);
    if DeedOf(role, x, m) != [] && |Outbox(role, x)| <= |Outbox(role, y)| then Outbox(role, y)[|Outbox(role, x)|..]
    else []
  }

  function Said(role: Role, x: Both, ms: seq<Move>): seq<Message> {
    if ms == [] then []
    else
      var n := |ms| - 1;
      Said(role, x, ms[..n]) + SaidIn(role, ProceedAll(x, ms[..n]), ms[n])
  }

  /** Hearing is taking the message, and saying the answers. */
  lemma Hears(role: Role, x: Both, m: Message)
    ensures var y, act := Alone(role, x, Hear(m)), Takes(role, End(role, x), m);
      && SideOf(role, y) == SideOf(role, x).(ep := act.ep)
      && Outbox(role, y) == Outbox(role, x) + act.out
  {
    MessagesAppend(x.h.up, |x.h.log|, Takes(role, End(role, x), m).out);
  }

  /** The outbox of `y` is that of `x` with `out` behind it. */
  predicate Adds(role: Role, x: Both, y: Both, out: seq<Message>) {
    Outbox(role, y) == Outbox(role, x) + out
  }

  lemma ClientShakes(x: Both, y: Both, step: Step) returns (out: seq<Message>)
    requires SideOf(AsClient, x) == SideOf(AsClient, y) && ClientCall(step)
    ensures var u, v := Proceed(x, Shake(step)), Proceed(y, Shake(step));
      SideOf(AsClient, u) == SideOf(AsClient, v) && Adds(AsClient, x, u, out) && Adds(AsClient, y, v, out)
  {
    var c, port := x.h.c, x.h.s.port;
    out :=
      if x.ClientBusy() then []
      else match step
        case ConnectStart => if !x.h.connecting && c.state.Closed? then ConnectBegin(c, c.remote, port).out else []
        case ConnectFinish => if x.h.connecting && !c.state.SynSent? then ConnectEnd(c).out else []
        case ClientDisconnect => if x.h.connecting then [] else Disconnect(c).out
        case _ => [];
    MessagesAppend(x.h.up, |x.h.log|, out);
    MessagesAppend(y.h.up, |y.h.log|, out);
  }

  lemma ServerShakes(x: Both, y: Both, step: Step) returns (out: seq<Message>)
    requires SideOf(AsServer, x) == SideOf(AsServer, y) && ServerCall(step)
    ensures var u, v := Proceed(x, Shake(step)), Proceed(y, Shake(step));
      SideOf(AsServer, u) == SideOf(AsServer, v) && Adds(AsServer, x, u, out) && Adds(AsServer, y, v, out)
  {
    out := Outbox(AsServer, Proceed(x, Shake(step)))[|x.h.down|..];
  }

  lemma Writes(role: Role, x: Both, y: Both, m: Move) returns (out: seq<Message>)
    requires SideOf(role, x) == SideOf(role, y) && Own(role, m) && !m.Shake?
    ensures var u, v := Proceed(x, m), Proceed(y, m);
      SideOf(role, u) == SideOf(role, v) && Adds(role, x, u, out) && Adds(role, y, v, out)
  {
    var call := SideOf(role, x).call;
    out :=
      if (m.ClientSend? || m.ServerSend?) && CanSend(call) then [FrameOf(call.value.w, call.value.bytes)] else [];
    MessagesAppend(x.h.up, |x.h.log|, out);
    MessagesAppend(y.h.up, |y.h.log|, out);
  }

  /** What the end says in a deed, and where it goes on, is determined by its side. */
  lemma AloneFromSide(role: Role, x: Both, y: Both, d: Deed) returns (out: seq<Message>)
    requires SideOf(role, x) == SideOf(role, y) && (d.Do? ==> Own(role, d.move))
    ensures var u, v := Alone(role, x, d), Alone(role, y, d);
      SideOf(role, u) == SideOf(role, v) && Adds(role, x, u, out) && Adds(role, y, v, out)
  {
    match d
    case Hear(m) =>
      Hears(role, x, m);
      Hears(role, y, m);
      out := Takes(role, End(role, x), m).out;
    case Do(move) =>
      if !move.Shake? {
        out := Writes(role, x, y, move);
      } else if role.AsClient? {
        out := ClientShakes(x, y, move.step);
      } else {
        out := ServerShakes(x, y, move.step);
      }
  }

  /** The other end's moves, and losses, change nothing for the end. */
  lemma OthersPass(role: Role, x: Both, m: Move)
    requires DeedOf(role, x, m) == []
    ensures SideOf(role, Proceed(x, m)) == SideOf(role, x)
  {
  }

  /** A delivery is the hearing of the first message on the way. */
  lemma DeliveryIsHearing(role: Role, x: Both)
    requires Inbox(role, x) != []
    ensures var y, z := Proceed(x, Delivery(role)), Alone(role, x, Hear(Inbox(role, x)[0]));
      SideOf(role, y) == SideOf(role, z) && Outbox(role, y) == Outbox(role, z)
  {
  }

  lemma MoveIsDeed(role: Role, x: Both, m: Move, d: Deed)
    requires DeedOf(role, x, m) == [d]
    ensures SideOf(role, Proceed(x, m)) == SideOf(role, Alone(role, x, d))
    ensures Adds(role, x, Alone(role, x, d), SaidIn(role, x, m))
  {
    if d.Hear? {
      DeliveryIsHearing(role, x);
    }
    var out := AloneFromSide(role, x, x, d);
    assert (Outbox(role, x) + out)[|Outbox(role, x)|..] == out;
  }

  /** The move of the two ends in `y` does to the end what its deed does to the one alone in `z`. */
  lemma MoveAsDeed(role: Role, y: Both, z: Both, m: Move, d: Deed)
    requires SideOf(role, y) == SideOf(role, z) && DeedOf(role, y, m) == [d]
    ensures SideOf(role, Proceed(y, m)) == SideOf(role, Alone(role, z, d))
    ensures Adds(role, z, Alone(role, z, d), SaidIn(role, y, m))
  {
    MoveIsDeed(role, y, m, d);
    var out := AloneFromSide(role, y, z, d);
    SameAdded(Outbox(role, y), out, SaidIn(role, y, m));
  }

  /** `y` in a run of the two ends and `z` alone are the same to the end, which has said `said` since `x`. */
  predicate Alike(role: Role, x: Both, y: Both, z: Both, said: seq<Message>) {
    SideOf(role, y) == SideOf(role, z) && Adds(role, x, z, said)
  }

  lemma AlikeStep(role: Role, x: Both, y: Both, z: Both, said: seq<Message>, m: Move)
    requires Alike(role, x, y, z, said)
    ensures Alike(role, x, Proceed(y, m), AloneAll(role, z, DeedOf(role, y, m)), said + SaidIn(role, y, m))
  {
    if DeedOf(role, y, m) == [] {
      OthersPass(role, y, m);
      assert said + [] == said;
    } else {
      var d := DeedOf(role, y, m)[0];
      OneMoreDeed(role, z, [], d);
      assert [] + [d] == [d];
      MoveAsDeed(role, y, z, m, d);
      AddsMore(Outbox(role, x), said, SaidIn(role, y, m));
    }
  }

  lemma OneMoreDeed(role: Role, x: Both, ds: seq<Deed>, d: Deed)
    ensures AloneAll(role, x, ds + [d]) == Alone(role, AloneAll(role, x, ds), d)
  {
    assert (ds + [d])[..|ds|] == ds;
  }

  lemma {:induction false} AloneAppend(role: Role, x: Both, a: seq<Deed>, b: seq<Deed>)
    ensures AloneAll(role, x, a + b) == AloneAll(role, AloneAll(role, x, a), b)
    decreases |b|
  {
    if b == [] {
      assert a + b == a;
    } else {
      var n := |b| - 1;
      AloneAppend(role, x, a, b[..n]);
      assert (a + b)[..|a + b| - 1] == a + b[..n];
    }
  }

  /** An end goes on from its own deeds alone: in every run, whatever the other end does and whatever is lost,
      it is where the same deeds lead it by itself, and has said the same. */
  lemma {:induction false} RunFromDeeds(role: Role, x: Both, ms: seq<Move>)
    ensures Alike(role, x, ProceedAll(x, ms), AloneAll(role, x, Deeds(role, x, ms)), Said(role, x, ms))
  {
    if ms == [] {
      assert Outbox(role, x) + [] == Outbox(role, x);
    } else {
      var n := |ms| - 1;
      var y, ds := ProceedAll(x, ms[..n]), Deeds(role, x, ms[..n]);
      RunFromDeeds(role, x, ms[..n]);
      AlikeStep(role, x, y, AloneAll(role, x, ds), Said(role, x, ms[..n]), ms[n]);
      AloneAppend(role, x, ds, DeedOf(role, y, ms[n]));
    }
  }

  /** The same for all runs with given deeds. */
  lemma EveryRun(role: Role, x: Both, ds: seq<Deed>, out: seq<Message>)
    requires Adds(role, x, AloneAll(role, x, ds), out)
    ensures forall ms | Deeds(role, x, ms) == ds ::
      SideOf(role, ProceedAll(x, ms)) == SideOf(role, AloneAll(role, x, ds)) && Said(role, x, ms) == out
  {
    forall ms | Deeds(role, x, ms) == ds
      ensures SideOf(role, ProceedAll(x, ms)) == SideOf(role, AloneAll(role, x, ds)) && Said(role, x, ms) == out
    {
      RunFromDeeds(role, x, ms);
      SameAdded(Outbox(role, x), Said(role, x, ms), out);
    }
  }

  lemma SameAdded(a: seq<Message>, b: seq<Message>, c: seq<Message>)
    requires a + b == a + c
    ensures b == c
  {
    assert (a + b)[|a|..] == b && (a + c)[|a|..] == c;
  }

  lemma AddsMore(a: seq<Message>, b: seq<Message>, c: seq<Message>)
    ensures a + b + c == a + (b + c)
  {
  }
}
