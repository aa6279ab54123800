/** The transfers of module Transfer are the runs of the two ends of module Duplex in which one end writes and
    the other listens. */
module Embedding {
  import opened Bytes
  import opened Endpoints
  import opened Links
  import opened Duplex
  import opened Sides
  import opened Calls
  import Transfer

  function Other(role: Role): Role {
    if role.AsServer? then AsClient else AsServer
  }

  predicate Acks(ms: seq<Message>) {
    forall i | 0 <= i < |ms| :: ms[i].Ack?
  }

  predicate Frames(ms: seq<Message>) {
    forall i | 0 <= i < |ms| :: ms[i].Data?
  }

  /** The net `x` of the write `k` is what happens between the two open ends in `y`. */
  predicate Embedded(k: Transfer.Job, x: Transfer.Net, y: Both) {
    var s := SideOf(Other(k.role), y);
    && k.extra == 0 && s.ep.state.Open? && !s.running && s.ep.lastAck == x.lastAck
    && s.call == Some(Call(k.bytes, x.w))
    && End(k.role, y) == x.r && x.r.state.Open?
    && Inbox(k.role, y) == Messages(x.fwd) && Frames(Messages(x.fwd))
    && Inbox(Other(k.role), y) == Messages(x.back) && Acks(Messages(x.back))
  }

  /** The steps of the net as moves of the ends. */
  function MoveFor(role: Role, step: Transfer.Step): Move {
    match step
    case SendNext => SendOf(Other(role))
    case LoseData(i) => Shake(if role.AsServer? then Handshake.LoseUp(i) else Handshake.LoseDown(i))
    case DeliverData => Delivery(role)
    case LoseAck(j) => Shake(if role.AsServer? then Handshake.LoseDown(j) else Handshake.LoseUp(j))
    case DeliverAck => Delivery(Other(role))
    case EndWait => EndWaitOf(Other(role))
  }

  lemma MessagesTail(ts: seq<Tagged>)
    requires ts != []
    ensures Messages(ts[1..]) == Messages(ts)[1..]
  {
  }

  lemma SendStep(k: Transfer.Job, x: Transfer.Net, y: Both)
    requires Embedded(k, x, y)
    ensures Embedded(k, Transfer.Apply(k, x, Transfer.SendNext), Proceed(y, SendOf(Other(k.role))))
  {
    var s := SideOf(Other(k.role), y);
    if CanSend(s.call) {
      Sends(Other(k.role), y);
    }
  }

  lemma EndStep(k: Transfer.Job, x: Transfer.Net, y: Both)
    requires Embedded(k, x, y)
    ensures Embedded(k, Transfer.Apply(k, x, Transfer.EndWait), Proceed(y, EndWaitOf(Other(k.role))))
  {
    var s := SideOf(Other(k.role), y);
    if CanEnd(s.call) {
      Concludes(Other(k.role), y);
    }
  }

  lemma DropKeeps(ms: seq<Message>, i: nat)
    ensures Acks(ms) ==> Acks(Drop(ms, i))
    ensures Frames(ms) ==> Frames(Drop(ms, i))
  {
  }

  lemma DataLost(k: Transfer.Job, x: Transfer.Net, y: Both, i: nat)
    requires Embedded(k, x, y)
    ensures Embedded(k, Transfer.Apply(k, x, Transfer.LoseData(i)), Proceed(y, MoveFor(k.role, Transfer.LoseData(i))))
  {
    MessagesDrop(x.fwd, i);
    MessagesDrop(y.h.up, i);
    DropKeeps(Messages(x.fwd), i);
  }

  lemma AckLost(k: Transfer.Job, x: Transfer.Net, y: Both, j: nat)
    requires Embedded(k, x, y)
    ensures Embedded(k, Transfer.Apply(k, x, Transfer.LoseAck(j)), Proceed(y, MoveFor(k.role, Transfer.LoseAck(j))))
  {
    MessagesDrop(x.back, j);
    MessagesDrop(y.h.up, j);
    DropKeeps(Messages(x.back), j);
  }

  lemma DataStep(k: Transfer.Job, x: Transfer.Net, y: Both)
    requires Embedded(k, x, y)
    ensures Embedded(k, Transfer.Apply(k, x, Transfer.DeliverData), Proceed(y, Delivery(k.role)))
  {
    if x.fwd != [] {
      MessagesTail(x.fwd);
      assert Messages(x.fwd)[0] == x.fwd[0].msg;
      DataAnswered(k.role, x.r, x.fwd[0].msg);
    }
  }

  /** An open end answers a frame with an ACK, and stays open. */
  lemma DataAnswered(role: Role, e: Endpoint, m: Message)
    requires e.state.Open? && m.Data?
    ensures var act := Takes(role, e, m);
      act.ep.state.Open? && act.out == [Ack(act.ep.remoteSeq)] && act.ep.lastAck == e.lastAck
  {
  }

  lemma AckStep(k: Transfer.Job, x: Transfer.Net, y: Both)
    requires Embedded(k, x, y)
    ensures Embedded(k, Transfer.Apply(k, x, Transfer.DeliverAck), Proceed(y, Delivery(Other(k.role))))
  {
    if x.back != [] {
      MessagesTail(x.back);
      assert Messages(x.back)[0].Ack?;
    }
  }

  function MovesFor(role: Role, steps: seq<Transfer.Step>): (ms: seq<Move>)
    ensures |ms| == |steps|
  {
    seq(|steps|, i requires 0 <= i < |steps| => MoveFor(role, steps[i]))
  }

  /** Step for step the two are the same: every schedule of the net is one of the two ends. */
  lemma {:induction false} TransferIsPart(k: Transfer.Job, x: Transfer.Net, y: Both, steps: seq<Transfer.Step>)
    requires Embedded(k, x, y)
    ensures Embedded(k, Transfer.Run(k, x, steps), ProceedAll(y, MovesFor(k.role, steps)))
  {
    if steps != [] {
      var n := |steps| - 1;
      var u, v := Transfer.Run(k, x, steps[..n]), ProceedAll(y, MovesFor(k.role, steps[..n]));
      TransferIsPart(k, x, y, steps[..n]);
      assert MovesFor(k.role, steps)[..n] == MovesFor(k.role, steps[..n]);
      match steps[n]
      case SendNext => SendStep(k, u, v);
      case EndWait => EndStep(k, u, v);
      case DeliverData => DataStep(k, u, v);
      case DeliverAck => AckStep(k, u, v);
      case LoseData(i) => DataLost(k, u, v, i);
      case LoseAck(j) => AckLost(k, u, v, j);
    }
  }

  /** A call of write() between two open ends with empty links begins the net that the statements about single
      writes speak of. */
  lemma WriteEnters(k: Transfer.Job, y: Both)
    requires var s := SideOf(Other(k.role), y);
      s.ep.state.Open? && !s.running && !(s.call.Some? && s.call.value.Busy())
    requires k.extra == 0 && k.bytes != [] && End(k.role, y).state.Open? && y.h.up == [] && y.h.down == []
    ensures var e, r := End(Other(k.role), y), End(k.role, y);
      Embedded(k, Transfer.Entered(k, e.seqNo, e.lastAck, r), Proceed(y, WriteOf(Other(k.role), k.bytes)))
  {
  }
}
