/** What the two ends agree on when a single connect() has opened both. */
module Agreement {
  import opened Bytes
  import opened Endpoints
  import opened Handshake

  /** The values with which the two ends start. */
  datatype Initial = Initial(clientSeq: byte, serverSeq: byte, clientPort: byte, clientAck: byte, serverAck: byte)

  predicate Wrote(step: Step) {
    step.ClientData? || step.ServerData?
  }

  /** Nobody writes. */
  predicate Silent(steps: seq<Step>) {
    forall i | 0 <= i < |steps| :: !Wrote(steps[i])
  }

  function Connects(steps: seq<Step>): nat {
    if steps == [] then 0 else Connects(steps[..|steps| - 1]) + if steps[|steps| - 1].ConnectStart? then 1 else 0
  }

  /** connect() is called at most once, and nobody writes. */
  predicate OneConnect(steps: seq<Step>) {
    Silent(steps) && Connects(steps) <= 1
  }

  predicate Answering(e: Endpoint) {
    e.state.Pending? || e.state.Open?
  }

  predicate HeardSyn(e: Endpoint) {
    e.state.SynRecved? || e.state.Open?
  }

  predicate ClientLink(x: Sys, v: Initial) {
    && (forall i | 0 <= i < |x.up| :: !x.up[i].msg.Data?)
    && (forall i | 0 <= i < |x.up| && x.up[i].msg.Syn? ::
          x.up[i].msg == Syn(v.clientSeq, v.clientPort) && !Engaged(x.s) && x.s.seqNo == v.serverSeq)
    && (forall i, j | 0 <= i < j < |x.up| ::
          !(x.up[i].msg.Syn? && x.up[j].msg.Syn?) && !(x.up[i].msg.Ack? && x.up[j].msg.Ack?))
    && (x.c.state.Open? ==> forall i | 0 <= i < |x.up| && x.up[i].msg.Ack? :: i == |x.up| - 1)
    && (x.c.state.SynSent? || x.c.state.SynRecved? || x.s.state.Open? ==>
          forall i | 0 <= i < |x.up| :: !x.up[i].msg.Ack?)
    && (x.c.state.Open? && x.s.state.Open? ==> x.up == [])
  }

  predicate ServerLink(x: Sys, v: Initial) {
    && (forall i | 0 <= i < |x.down| :: !x.down[i].Data?)
    && (forall i | 0 <= i < |x.down| && x.down[i].Syn? ::
          x.down[i].seqNo == v.serverSeq && x.s.seqNo == Next(v.serverSeq) && (Answering(x.s) ==> i == |x.down| - 1))
    && (forall i, j | 0 <= i < j < |x.down| && x.down[i].Syn? :: !x.down[j].Syn? && !x.down[j].Ack?)
    && (HeardSyn(x.c) ==> forall i | 0 <= i < |x.down| :: !x.down[i].Syn? && !x.down[i].Ack?)
    && (HeardSyn(x.c) && Answering(x.s) ==> x.down == [])
  }

  predicate Ends(x: Sys, v: Initial) {
    && x.c.port == v.clientPort && x.c.lastAck == v.clientAck && x.s.lastAck == v.serverAck
    && (x.c.seqNo == v.clientSeq || x.c.seqNo == Next(v.clientSeq))
    && (x.c.seqNo == v.clientSeq ==>
          x.c.state.Closed? && !x.connecting && x.up == [] && !Engaged(x.s) && x.s.seqNo == v.serverSeq)
    && (x.s.state.SynRecved? ==> x.s.seqNo == v.serverSeq)
    && (Answering(x.s) ==> x.s.seqNo == Next(v.serverSeq))
    && (Engaged(x.s) ==> x.s.remoteSeq == v.clientSeq && x.s.remotePort == v.clientPort)
    && (HeardSyn(x.c) ==> x.c.remoteSeq == v.serverSeq && x.s.seqNo == Next(v.serverSeq))
    && (x.c.state.SynSent? || x.c.state.SynRecved? ==> !x.s.state.Open?)
    && (x.c.state.SynSent? ==> x.connecting)
    && (x.connecting ==> !x.c.state.Open?)
  }

  predicate Single(x: Sys, v: Initial) {
    Ends(x, v) && ClientLink(x, v) && ServerLink(x, v)
  }

  lemma ConnectKeepsSingle(x: Sys, v: Initial)
    requires Single(x, v) && x.c.seqNo == v.clientSeq
    ensures Single(Apply(x, ConnectStart), v)
  {
  }

  lemma FinishKeepsSingle(x: Sys, v: Initial)
    requires Single(x, v)
    ensures Single(Apply(x, ConnectFinish), v)
  {
  }

  lemma AcceptKeepsSingle(x: Sys, v: Initial)
    requires Single(x, v)
    ensures Single(Apply(x, AcceptStart), v)
  {
  }

  lemma DeliverUpKeepsEnds(x: Sys, v: Initial)
    requires Single(x, v)
    ensures Ends(Apply(x, DeliverUp), v) && ServerLink(Apply(x, DeliverUp), v)
  {
    if x.up != [] {
      assert ServerTakes(x.s, x.up[0].msg).out == [];
      assert Apply(x, DeliverUp).down == x.down;
    }
  }

  lemma DeliverUpKeepsLink(x: Sys, v: Initial)
    requires Single(x, v)
    ensures ClientLink(Apply(x, DeliverUp), v)
  {
    var y := Apply(x, DeliverUp);
    if x.up != [] {
      assert forall i | 0 <= i < |y.up| :: y.up[i] == x.up[i + 1];
    }
  }

  lemma DeliverDownKeepsSingle(x: Sys, v: Initial)
    requires Single(x, v)
    ensures Single(Apply(x, DeliverDown), v)
  {
  }

  lemma LossUpKeepsSingle(x: Sys, v: Initial, i: nat)
    requires Single(x, v)
    ensures Single(Apply(x, LoseUp(i)), v)
  {
  }

  lemma LossDownKeepsSingle(x: Sys, v: Initial, i: nat)
    requires Single(x, v)
    ensures Single(Apply(x, LoseDown(i)), v)
  {
  }

  lemma ClientCloseKeepsSingle(x: Sys, v: Initial)
    requires Single(x, v)
    ensures Single(Apply(x, ClientDisconnect), v)
  {
  }

  lemma ServerCloseKeepsSingle(x: Sys, v: Initial, step: Step)
    requires Single(x, v)
    requires step.ServerDisconnect? || step.AcceptTimeout? || step.AcceptFinish?
    ensures Single(Apply(x, step), v)
  {
    assert Apply(x, step).up == x.up && Apply(x, step).c == x.c;
  }

  lemma StepKeepsSingle(x: Sys, v: Initial, step: Step)
    requires Single(x, v) && !Wrote(step)
    requires step.ConnectStart? ==> x.c.seqNo == v.clientSeq
    ensures Single(Apply(x, step), v)
    ensures !step.ConnectStart? ==> Apply(x, step).c.seqNo == x.c.seqNo
  {
    match step
    case ConnectStart => ConnectKeepsSingle(x, v);
    case ConnectFinish => FinishKeepsSingle(x, v);
    case AcceptStart => AcceptKeepsSingle(x, v);
    case DeliverUp =>
      DeliverUpKeepsEnds(x, v);
      DeliverUpKeepsLink(x, v);
    case DeliverDown => DeliverDownKeepsSingle(x, v);
    case LoseUp(i) => LossUpKeepsSingle(x, v, i);
    case LoseDown(i) => LossDownKeepsSingle(x, v, i);
    case ConnectTimeout =>
    case ServerListen =>
    case ClientDisconnect => ClientCloseKeepsSingle(x, v);
    case _ => ServerCloseKeepsSingle(x, v, step);
  }

  lemma {:induction false} RunKeepsSingle(x: Sys, v: Initial, steps: seq<Step>)
    requires Fresh(x) && OneConnect(steps)
    requires v == Initial(x.c.seqNo, x.s.seqNo, x.c.port, x.c.lastAck, x.s.lastAck)
    ensures Single(Run(x, steps), v)
    ensures Connects(steps) == 0 ==> Run(x, steps).c.seqNo == v.clientSeq
  {
    if steps != [] {
      var n := |steps| - 1;
      RunKeepsSingle(x, v, steps[..n]);
      StepKeepsSingle(Run(x, steps[..n]), v, steps[n]);
    }
  }

  /** Whatever was lost: once a single connect() has opened both ends, each end's remote_sequence is the
      number just before its peer's sequence_number, the server knows the client's port, and the links
      are empty. */
  lemma OpenEndsAgree(x: Sys, steps: seq<Step>)
    requires Fresh(x) && OneConnect(steps)
    ensures var y := Run(x, steps);
      y.c.state.Open? && y.s.state.Open? ==>
        && y.c.seqNo == Next(y.s.remoteSeq) && y.s.seqNo == Next(y.c.remoteSeq)
        && y.s.remoteSeq == x.c.seqNo && y.c.remoteSeq == x.s.seqNo
        && y.s.remotePort == x.c.port
        && y.up == [] && y.down == []
        && y.c.lastAck == x.c.lastAck && y.s.lastAck == x.s.lastAck
  {
    RunKeepsSingle(x, Initial(x.c.seqNo, x.s.seqNo, x.c.port, x.c.lastAck, x.s.lastAck), steps);
  }
}
