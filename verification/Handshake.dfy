/** The connection handshake between one client and one server over two lossy FIFO links. */
module Handshake {
  import opened Bytes
  import opened Endpoints
  import opened Links

  /** What the history remembers. */
  datatype Event = SynEvent(seqNo: byte, port: byte) | OpenEvent

  /** The two ends, whether connect or accept is running, the links, the history, and the index of the SYN
      that the server recorded last. */
  datatype Sys = Sys(
    c: Endpoint, s: Endpoint, connecting: bool, accepting: bool,
    up: seq<Tagged>, down: seq<Message>, log: seq<Event>, recorded: nat)
  {
    function ByClient(act: Act): Sys {
      this.(c := act.ep, up := up + Tag(|log|, act.out))
    }

    function ByServer(act: Act): Sys {
      this.(s := act.ep, down := down + act.out)
    }
  }

  datatype Step =
    | ConnectStart | ConnectTimeout | ConnectFinish | ClientDisconnect | ClientData(n: byte, bytes: seq<byte>)
    | ServerListen | AcceptStart | AcceptTimeout | AcceptFinish | ServerDisconnect
    | ServerData(m: byte, data: seq<byte>)
    | LoseUp(i: nat) | DeliverUp | LoseDown(j: nat) | DeliverDown

  /** One atomic step; a step that is not enabled changes nothing. While connect or accept runs, its
      endpoint does nothing else but receive. */
  function Apply(x: Sys, step: Step): Sys {
    match step
    case ConnectStart =>
      if x.connecting || !x.c.state.Closed? then x
      else
        var y := x.ByClient(ConnectBegin(x.c, x.c.remote, x.s.port));
        y.(connecting := true, log := x.log + [SynEvent(x.c.seqNo, x.c.port)])
    case ConnectTimeout => if x.connecting then x.(connecting := false, c := x.c.(state := Closed)) else x
    case ConnectFinish =>
      if !x.connecting || x.c.state.SynSent? then x
      else
        var y := x.ByClient(ConnectEnd(x.c));
        y.(connecting := false, log := if y.c.state.Open? then x.log + [OpenEvent] else x.log)
    case ClientDisconnect => if x.connecting then x else x.ByClient(Disconnect(x.c))
    case ClientData(n, bytes) =>
      if x.connecting || !x.c.state.Open? then x else x.ByClient(Act(x.c, [Data(n, bytes)]))
    case ServerListen => if x.accepting || !x.s.state.Closed? then x else x.(s := x.s.(state := Listening))
    case AcceptStart =>
      if x.accepting || !x.s.state.SynRecved? then x else x.ByServer(AcceptBegin(x.s)).(accepting := true)
    case AcceptTimeout => if x.accepting then x.ByServer(Disconnect(x.s)).(accepting := false) else x
    case AcceptFinish =>
      if !x.accepting || x.s.state.Pending? then x else x.ByServer(AcceptEnd(x.s)).(accepting := false)
    case ServerDisconnect => if x.accepting then x else x.ByServer(Disconnect(x.s))
    case ServerData(n, bytes) =>
      if x.accepting || !x.s.state.Open? then x else x.ByServer(Act(x.s, [Data(n, bytes)]))
    case LoseUp(i) => x.(up := Drop(x.up, i))
    case DeliverUp =>
      if x.up == [] then x
      else
        var act := ServerTakes(x.s, x.up[0].msg);
        var y := x.(up := x.up[1..]).ByServer(act);
        if x.s.state.Listening? && act.ep.state.SynRecved? then y.(recorded := x.up[0].index) else y
    case LoseDown(i) => x.(down := Drop(x.down, i))
    case DeliverDown =>
      if x.down == [] then x else x.(down := x.down[1..]).ByClient(ClientTakes(x.c, x.down[0]))
  }

  function Run(x: Sys, steps: seq<Step>): Sys {
    if steps == [] then x else Apply(Run(x, steps[..|steps| - 1]), steps[|steps| - 1])
  }

  /** Two closed ends with nothing on the links. */
  predicate Fresh(x: Sys) {
    && x.c.state.Closed? && x.s.state.Closed? && !x.connecting && !x.accepting
    && x.up == [] && x.down == [] && x.log == [] && x.recorded == 0
  }

  /** The client has opened after position `t` of the history. */
  ghost predicate OpenedAfter(log: seq<Event>, t: nat) {
    exists j :: t < j < |log| && log[j].OpenEvent?
  }

  predicate Engaged(e: Endpoint) {
    e.state.SynRecved? || e.state.Pending? || e.state.Open?
  }

  predicate SynLogged(log: seq<Event>, t: Tagged) {
    t.msg.Syn? ==> t.index < |log| && log[t.index] == SynEvent(t.msg.seqNo, t.msg.port)
  }

  ghost predicate Causal(x: Sys) {
    && (forall i | 0 <= i < |x.up| :: SynLogged(x.log, x.up[i]))
    && (forall i, j | 0 <= i < j < |x.up| && x.up[i].msg.Syn? && x.up[j].msg.Ack? :: OpenedAfter(x.log, x.up[i].index))
    && (x.c.state.Open? ==> forall i | 0 <= i < |x.up| && x.up[i].msg.Syn? :: OpenedAfter(x.log, x.up[i].index))
    && (Engaged(x.s) ==>
        && x.recorded < |x.log| && x.log[x.recorded].SynEvent?
        && (!x.s.state.Open? ==> x.log[x.recorded] == SynEvent(x.s.remoteSeq, x.s.remotePort))
        && (x.c.state.Open? || x.s.state.Open? || (exists j :: 0 <= j < |x.up| && x.up[j].msg.Ack?)
            ==> OpenedAfter(x.log, x.recorded)))
  }

  lemma OpenedStays(log: seq<Event>, more: seq<Event>, t: nat)
    requires OpenedAfter(log, t)
    ensures OpenedAfter(log + more, t)
  {
    var j :| t < j < |log| && log[j].OpenEvent?;
    assert (log + more)[j].OpenEvent?;
  }

  lemma CausalStep(x: Sys, step: Step)
    requires Causal(x)
    ensures Causal(Apply(x, step))
  {
    match step
    case ConnectStart => StartKeepsCausal(x);
    case ConnectFinish => FinishKeepsCausal(x);
    case LoseUp(i) => LossKeepsCausal(x, i);
    case DeliverUp => DeliveryKeepsCausal(x);
    case DeliverDown => AnswerKeepsCausal(x);
    case ClientDisconnect => SendingKeepsCausal(x, step);
    case ClientData(_, _) => SendingKeepsCausal(x, step);
    case _ =>
  }

  lemma SendingKeepsCausal(x: Sys, step: Step)
    requires Causal(x) && (step.ClientDisconnect? || step.ClientData?)
    ensures Causal(Apply(x, step))
  {
  }

  lemma LossKeepsCausal(x: Sys, i: nat)
    requires Causal(x)
    ensures Causal(Apply(x, LoseUp(i)))
  {
  }

  lemma DeliveryKeepsCausal(x: Sys)
    requires Causal(x)
    ensures Causal(Apply(x, DeliverUp))
  {
    if x.up != [] {
      var y := Apply(x, DeliverUp);
      assert forall i | 0 <= i < |y.up| :: y.up[i] == x.up[i + 1];
      assert SynLogged(x.log, x.up[0]);
    }
  }

  lemma AnswerKeepsCausal(x: Sys)
    requires Causal(x)
    ensures Causal(Apply(x, DeliverDown))
  {
  }

  lemma StartKeepsCausal(x: Sys)
    requires Causal(x)
    ensures Causal(Apply(x, ConnectStart))
  {
    var y := Apply(x, ConnectStart);
    if y != x {
      forall t | OpenedAfter(x.log, t)
        ensures OpenedAfter(y.log, t)
      {
        OpenedStays(x.log, [SynEvent(x.c.seqNo, x.c.port)], t);
      }
    }
  }

  lemma FinishKeepsCausal(x: Sys)
    requires Causal(x)
    ensures Causal(Apply(x, ConnectFinish))
  {
    var y := Apply(x, ConnectFinish);
    if |y.log| > |x.log| {
      forall t | 0 <= t < |x.log|
        ensures OpenedAfter(y.log, t)
      {
        assert y.log[|x.log|].OpenEvent?;
      }
    }
  }

  lemma {:induction false} CausalRun(x: Sys, steps: seq<Step>)
    requires Fresh(x)
    ensures Causal(Run(x, steps))
  {
    if steps != [] {
      CausalRun(x, steps[..|steps| - 1]);
      CausalStep(Run(x, steps[..|steps| - 1]), steps[|steps| - 1]);
    }
  }

  /** Causality: in every reachable state, an open server has recorded a SYN that the client really
      sent, and the client has been open since it sent it. */
  lemma OpenServerHasOpenedClient(x: Sys, steps: seq<Step>)
    requires Fresh(x)
    ensures var y := Run(x, steps);
      && (Engaged(y.s) ==> y.recorded < |y.log| && y.log[y.recorded].SynEvent?)
      && (Engaged(y.s) && !y.s.state.Open? ==> y.log[y.recorded] == SynEvent(y.s.remoteSeq, y.s.remotePort))
      && (y.s.state.Open? ==> exists j :: y.recorded < j < |y.log| && y.log[j].OpenEvent?)
  {
    CausalRun(x, steps);
  }
}
