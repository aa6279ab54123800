/** disconnect: the other end hears of it. */
module Closing {
  import opened Bytes
  import opened Endpoints
  import opened Links
  import opened Handshake
  import opened Crossing

  /** The states in which an end of a kind can be. */
  predicate Possible(role: Role, s: ConnState) {
    match role
    case AsServer => !s.SynSent?
    case AsClient => !s.Listening? && !s.Pending?
  }

  /** The states in which it has, or waits for, a peer. */
  predicate Attached(role: Role, s: ConnState) {
    Possible(role, s) && !s.Closed? && !s.Listening?
  }

  lemma {:induction false} StatesArePossible(x: Sys, steps: seq<Step>)
    requires Fresh(x)
    ensures var y := Run(x, steps); Possible(AsClient, y.c.state) && Possible(AsServer, y.s.state)
  {
    if steps != [] {
      StatesArePossible(x, steps[..|steps| - 1]);
      PossibleStep(Run(x, steps[..|steps| - 1]), steps[|steps| - 1]);
    }
  }

  lemma PossibleStep(x: Sys, step: Step)
    ensures Possible(AsClient, x.c.state) ==> Possible(AsClient, Apply(x, step).c.state)
    ensures Possible(AsServer, x.s.state) ==> Possible(AsServer, Apply(x, step).s.state)
  {
    match step
    case DeliverUp =>
    case DeliverDown =>
    case _ =>
  }

  lemma {:induction false} StatesStay(role: Role, e: Endpoint, ms: seq<Message>)
    requires Possible(role, e.state)
    ensures Possible(role, TakesAll(role, e, ms).ep.state)
  {
    if ms != [] {
      StatesStay(role, e, ms[..|ms| - 1]);
    }
  }

  lemma CloseTaken(role: Role, e: Endpoint, n: byte)
    requires Possible(role, e.state)
    ensures !Attached(role, Takes(role, e, Close(n)).ep.state)
  {
  }

  /** Whatever is heard before it, a CLOSE leaves an end without its peer. */
  lemma CloseDetaches(role: Role, e: Endpoint, ms: seq<Message>, n: byte)
    requires Possible(role, e.state)
    ensures !Attached(role, TakesAll(role, e, ms + [Close(n)]).ep.state)
  {
    StatesStay(role, e, ms);
    CloseTaken(role, TakesAll(role, e, ms).ep, n);
    assert (ms + [Close(n)])[..|ms|] == ms;
  }

  /** Between paired ends, over the wire: from every state but CLOSED, disconnect sends the one datagram that
      tells the peer, which is closed when it has read it. */
  lemma PeerIsTold(e: Endpoint, ea: byte, t: Trace, address: byte, role: Role, ins: seq<Incoming>)
    requires Paired(e, ea, t.ep, address) && !e.state.Closed? && Attached(role, t.ep.state)
    requires var act := Disconnect(e); Arrive(Packed(act.ep, ea, act.out), address, t.ep.port, ins)
    ensures AllValid(ins) && |ins| == 1
    ensures ReadAll(t, address, role, ins) == t.(ep := t.ep.(state := Closed)) && Disconnect(e).ep.state.Closed?
  {
    var act := Disconnect(e);
    OnlyTheRemoteHears(act.ep, ea, act.out, address, t.ep.port, ins);
    PairsTalk(act.ep, ea, t, address, role, act.out, ins);
    assert act.out[..0] == [] && TakesAll(role, t.ep, act.out) == Takes(role, t.ep, act.out[0]);
    assert t.sent + Packed(t.ep, address, []) == t.sent;
  }

  /** The first `n` messages on a link are delivered. */
  function Deliveries(step: Step, n: nat): (steps: seq<Step>)
    ensures |steps| == n
  {
    seq(n, _ => step)
  }

  lemma {:induction false} AllUp(x: Sys, n: nat)
    requires n <= |x.up|
    ensures var y := Run(x, Deliveries(DeliverUp, n));
      y.up == x.up[n..] && y.s == TakesAll(AsServer, x.s, Messages(x.up)[..n]).ep && y.c == x.c
  {
    if n > 0 {
      AllUp(x, n - 1);
      assert Deliveries(DeliverUp, n)[..n - 1] == Deliveries(DeliverUp, n - 1);
      assert Messages(x.up)[..n][..n - 1] == Messages(x.up)[..n - 1];
    }
  }

  lemma {:induction false} AllDown(x: Sys, n: nat)
    requires n <= |x.down|
    ensures var y := Run(x, Deliveries(DeliverDown, n));
      y.down == x.down[n..] && y.c == TakesAll(AsClient, x.c, x.down[..n]).ep && y.s == x.s
  {
    if n > 0 {
      AllDown(x, n - 1);
      assert Deliveries(DeliverDown, n)[..n - 1] == Deliveries(DeliverDown, n - 1);
      assert x.down[..n][..n - 1] == x.down[..n - 1];
    }
  }

  /** In every reachable state, when the client disconnects and what is on its link is delivered, whatever that
      is, the server has no peer; and the other way round. */
  lemma ServerIsDetached(x: Sys, steps: seq<Step>)
    requires Fresh(x)
    ensures var y := Run(x, steps);
      var z := Apply(y, ClientDisconnect);
      !y.connecting && !y.c.state.Closed? ==>
        && |z.up| == |y.up| + 1 && z.c.state.Closed?
        && !Attached(AsServer, Run(z, Deliveries(DeliverUp, |z.up|)).s.state)
  {
    var y := Run(x, steps);
    var z := Apply(y, ClientDisconnect);
    if !y.connecting && !y.c.state.Closed? {
      StatesArePossible(x, steps);
      AllUp(z, |z.up|);
      assert Messages(z.up)[..|z.up|] == Messages(y.up) + [Close(y.c.seqNo)];
      CloseDetaches(AsServer, y.s, Messages(y.up), y.c.seqNo);
    }
  }

  lemma ClientIsDetached(x: Sys, steps: seq<Step>)
    requires Fresh(x)
    ensures var y := Run(x, steps);
      var z := Apply(y, ServerDisconnect);
      !y.accepting && !y.s.state.Closed? ==>
        && |z.down| == |y.down| + 1 && z.s.state.Closed?
        && Run(z, Deliveries(DeliverDown, |z.down|)).c.state.Closed?
  {
    var y := Run(x, steps);
    var z := Apply(y, ServerDisconnect);
    if !y.accepting && !y.s.state.Closed? {
      StatesArePossible(x, steps);
      AllDown(z, |z.down|);
      assert z.down[..|z.down|] == y.down + [Close(y.s.seqNo)];
      CloseDetaches(AsClient, y.c, y.down, y.s.seqNo);
      StatesStay(AsClient, y.c, y.down + [Close(y.s.seqNo)]);
    }
  }
}
