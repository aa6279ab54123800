/** What becomes of the agreement when connect() is called again. */
module Reconnecting {
  import opened Bytes
  import opened Endpoints
  import opened Links
  import opened Handshake
  import opened Agreement

  /** How many SYNs the history holds, and how many behind position `t`. */
  function Syns(log: seq<Event>): nat {
    if log == [] then 0 else Syns(log[..|log| - 1]) + if log[|log| - 1].SynEvent? then 1 else 0
  }

  function SynsAfter(log: seq<Event>, t: nat): int
    requires t < |log|
  {
    Syns(log) - Syns(log[..t + 1])
  }

  /** The number of the SYN at position `t`, if the first one has number `first`. */
  function NumberAt(log: seq<Event>, t: nat, first: byte): byte
    requires t <= |log|
  {
    (first + Syns(log[..t])) % 256
  }

  /** In a run without data, SYNs are numbered one after another, and the server's remote_sequence is the
      number of the SYN that it recorded. */
  predicate Numbered(x: Sys, first: byte) {
    && x.c.seqNo == NumberAt(x.log, |x.log|, first)
    && (forall t | 0 <= t < |x.log| && x.log[t].SynEvent? :: x.log[t].seqNo == NumberAt(x.log, t, first))
    && (forall i | 0 <= i < |x.up| :: !x.up[i].msg.Data?) && (forall i | 0 <= i < |x.down| :: !x.down[i].Data?)
    && (Engaged(x.s) ==>
        && x.recorded < |x.log| && x.log[x.recorded].SynEvent?
        && x.log[x.recorded].seqNo == x.s.remoteSeq)
  }

  lemma LogGrows(log: seq<Event>, e: Event, t: nat, first: byte)
    requires t <= |log|
    ensures NumberAt(log + [e], t, first) == NumberAt(log, t, first)
  {
    assert (log + [e])[..t] == log[..t];
  }

  lemma LogCounts(log: seq<Event>, e: Event, first: byte)
    ensures var n := NumberAt(log, |log|, first);
      NumberAt(log + [e], |log| + 1, first) == if e.SynEvent? then Next(n) else n
  {
    assert log[..|log|] == log && (log + [e])[..|log| + 1] == log + [e] && (log + [e])[..|log|] == log;
    NextWrapped(first + Syns(log));
  }

  lemma NextWrapped(n: nat)
    ensures (n + 1) % 256 == Next(n % 256)
  {
  }

  lemma NumberedGrows(x: Sys, y: Sys, first: byte, e: Event)
    requires Numbered(x, first) && y == x.(c := y.c, up := y.up, connecting := y.connecting, log := x.log + [e])
    requires y.c.seqNo == if e.SynEvent? then Next(x.c.seqNo) else x.c.seqNo
    requires e.SynEvent? ==> e.seqNo == x.c.seqNo
    requires forall i | 0 <= i < |y.up| :: !y.up[i].msg.Data?
    ensures Numbered(y, first)
  {
    forall t | 0 <= t <= |x.log|
      ensures NumberAt(y.log, t, first) == NumberAt(x.log, t, first)
    {
      LogGrows(x.log, e, t, first);
    }
    LogCounts(x.log, e, first);
  }

  lemma NumberedStep(x: Sys, first: byte, step: Step)
    requires Causal(x) && Numbered(x, first) && !Wrote(step)
    ensures Numbered(Apply(x, step), first)
  {
    match step
    case ConnectStart => NumberedConnects(x, first);
    case ConnectFinish => NumberedFinishes(x, first);
    case DeliverUp => NumberedReceives(x, first);
    case _ =>
  }

  lemma NumberedConnects(x: Sys, first: byte)
    requires Numbered(x, first)
    ensures Numbered(Apply(x, ConnectStart), first)
  {
    var y := Apply(x, ConnectStart);
    if y != x {
      NumberedGrows(x, y, first, SynEvent(x.c.seqNo, x.c.port));
    }
  }

  lemma NumberedFinishes(x: Sys, first: byte)
    requires Numbered(x, first)
    ensures Numbered(Apply(x, ConnectFinish), first)
  {
    var y := Apply(x, ConnectFinish);
    if |y.log| > |x.log| {
      NumberedGrows(x, y, first, OpenEvent);
    }
  }

  lemma NumberedReceives(x: Sys, first: byte)
    requires Causal(x) && Numbered(x, first)
    ensures Numbered(Apply(x, DeliverUp), first)
  {
    if x.up != [] {
      var y := Apply(x, DeliverUp);
      assert SynLogged(x.log, x.up[0]);
      assert forall i | 0 <= i < |y.up| :: y.up[i] == x.up[i + 1];
    }
  }

  lemma {:induction false} NumberedRun(x: Sys, steps: seq<Step>)
    requires Fresh(x) && Silent(steps)
    ensures Numbered(Run(x, steps), x.c.seqNo)
  {
    if steps != [] {
      var n := |steps| - 1;
      NumberedRun(x, steps[..n]);
      CausalRun(x, steps[..n]);
      NumberedStep(Run(x, steps[..n]), x.c.seqNo, steps[n]);
    }
  }

  /** The client's number is ahead of what an engaged server has recorded by one and the number of SYNs sent
      after the recorded one; so the client's half of the agreement holds if and only if that number is a
      multiple of 256. */
  predicate AheadByLater(x: Sys) {
    Engaged(x.s) ==>
      && x.recorded < |x.log|
      && x.c.seqNo == (x.s.remoteSeq + 1 + SynsAfter(x.log, x.recorded)) % 256
      && (x.c.seqNo == Next(x.s.remoteSeq) <==> SynsAfter(x.log, x.recorded) % 256 == 0)
  }

  lemma NumberedMeans(x: Sys, first: byte)
    requires Numbered(x, first)
    ensures AheadByLater(x)
  {
    if Engaged(x.s) {
      LaterSyns(x.log, x.recorded, first);
    }
  }

  /** That holds in every run without data, however often connect() is called. */
  lemma AheadByLaterSyns(x: Sys, steps: seq<Step>)
    requires Fresh(x) && Silent(steps)
    ensures AheadByLater(Run(x, steps))
  {
    NumberedRun(x, steps);
    NumberedMeans(Run(x, steps), x.c.seqNo);
  }

  lemma LaterSyns(log: seq<Event>, t: nat, first: byte)
    requires t < |log| && log[t].SynEvent?
    ensures var n, m, d := NumberAt(log, |log|, first), NumberAt(log, t, first), SynsAfter(log, t);
      n == (m + 1 + d) % 256 && (n == Next(m) <==> d % 256 == 0)
  {
    assert log[..t + 1][..t] == log[..t] && log[..|log|] == log;
    assert Syns(log[..t + 1]) == Syns(log[..t]) + 1;
    Wraps(first + Syns(log[..t]), SynsAfter(log, t));
  }

  lemma Wraps(a: nat, d: int)
    ensures (a + 1 + d) % 256 == (a % 256 + 1 + d) % 256
    ensures (a + 1 + d) % 256 == (a % 256 + 1) % 256 <==> d % 256 == 0
  {
    var q, m := a / 256, a % 256;
    assert a == 256 * q + m;
    assert (256 * q + (m + 1 + d)) % 256 == (m + 1 + d) % 256;
    SameModulo256(m + 1 + d, m + 1);
  }

  lemma SameModulo256(a: int, b: int)
    ensures a % 256 == b % 256 <==> (a - b) % 256 == 0
  {
  }

  /** Both ends are open only with numbers that agree. */
  predicate Agree(x: Sys) {
    x.c.state.Open? && x.s.state.Open? ==> x.c.seqNo == Next(x.s.remoteSeq) && x.s.seqNo == Next(x.c.remoteSeq)
  }

  /** A run without data and with `n` calls of connect() leads from `x` to `y`. */
  ghost predicate Reaches(x: Sys, y: Sys, n: nat) {
    exists steps :: Run(x, steps) == y && Silent(steps) && Connects(steps) == n
  }

  lemma ReachStart(x: Sys)
    ensures Reaches(x, x, 0)
  {
    assert Run(x, []) == x && Silent([]);
  }

  lemma MoreSteps(x: Sys, steps: seq<Step>, step: Step)
    ensures Run(x, steps + [step]) == Apply(Run(x, steps), step)
    ensures Connects(steps + [step]) == Connects(steps) + if step.ConnectStart? then 1 else 0
    ensures Silent(steps) && !Wrote(step) ==> Silent(steps + [step])
  {
    assert (steps + [step])[..|steps|] == steps;
  }

  lemma ReachStep(x: Sys, y: Sys, n: nat, step: Step) returns (z: Sys)
    requires Reaches(x, y, n) && !Wrote(step)
    ensures z == Apply(y, step) && Reaches(x, z, n + if step.ConnectStart? then 1 else 0)
  {
    var steps :| Run(x, steps) == y && Silent(steps) && Connects(steps) == n;
    MoreSteps(x, steps, step);
    z := Apply(y, step);
  }

  /** The states and numbers of both ends, and what is on the links. */
  predicate Stage(x: Sys, cs: ConnState, cn: byte, ss: ConnState, up: seq<Message>, down: seq<Message>) {
    && x.c.state == cs && x.c.seqNo == cn && x.s.state == ss
    && x.connecting == (cs.SynSent? || cs.SynRecved?) && x.accepting == (ss.Pending? || ss.Open?)
    && |x.up| == |up| && (forall i | 0 <= i < |up| :: x.up[i].msg == up[i])
    && x.down == down
  }

  lemma Connect(x: Sys, y: Sys, n: nat, ss: ConnState, up: seq<Message>) returns (z: Sys)
    requires Reaches(x, y, n) && Stage(y, Closed, y.c.seqNo, ss, up, [])
    ensures Reaches(x, z, n + 1) && z.s == y.s && z.c.port == y.c.port
    ensures Stage(z, SynSent, Next(y.c.seqNo), ss, up + [Syn(y.c.seqNo, y.c.port)], [])
  {
    z := ReachStep(x, y, n, ConnectStart);
  }

  lemma GiveUp(x: Sys, y: Sys, n: nat, cn: byte, ss: ConnState, up: seq<Message>) returns (z: Sys)
    requires Reaches(x, y, n) && Stage(y, SynSent, cn, ss, up, [])
    ensures Reaches(x, z, n) && Stage(z, Closed, cn, ss, up, []) && z.s == y.s && z.c.port == y.c.port
  {
    z := ReachStep(x, y, n, ConnectTimeout);
  }

  lemma Listen(x: Sys, y: Sys, n: nat, cs: ConnState, cn: byte, up: seq<Message>) returns (z: Sys)
    requires Reaches(x, y, n) && Stage(y, cs, cn, Closed, up, [])
    ensures Reaches(x, z, n) && Stage(z, cs, cn, Listening, up, [])
  {
    z := ReachStep(x, y, n, ServerListen);
  }

  /** From a listening server with a SYN first on its link to a client that has heard the answer. */
  lemma Answered(x: Sys, y: Sys, n: nat, cn: byte, first: Message, rest: seq<Message>) returns (z: Sys)
    requires Reaches(x, y, n) && Stage(y, SynSent, cn, Listening, [first] + rest, []) && first.Syn?
    ensures Reaches(x, z, n) && Stage(z, SynRecved, cn, Pending, rest, []) && z.s.remoteSeq == first.seqNo
  {
    assert forall i | 0 <= i < |rest| :: ([first] + rest)[i + 1] == rest[i];
    z := ReachStep(x, y, n, DeliverUp);
    z := ReachStep(x, z, n, AcceptStart);
    assert z.down == [Ack(first.seqNo), Syn(y.s.seqNo, y.s.port)];
    z := Heard(x, z, n, cn, rest, z.down[0], z.down[1]);
  }

  lemma Heard(x: Sys, y: Sys, n: nat, cn: byte, rest: seq<Message>, a: Message, b: Message) returns (z: Sys)
    requires Reaches(x, y, n) && Stage(y, SynSent, cn, Pending, rest, [a, b]) && a.Ack? && b.Syn?
    ensures Reaches(x, z, n) && Stage(z, SynRecved, cn, Pending, rest, []) && z.s == y.s
  {
    z := ReachStep(x, y, n, DeliverDown);
    assert z.down == [b];
    z := ReachStep(x, z, n, DeliverDown);
  }

  lemma Finish(x: Sys, y: Sys, n: nat, cn: byte, rest: seq<Message>) returns (z: Sys)
    requires Reaches(x, y, n) && Stage(y, SynRecved, cn, Pending, rest, [])
    ensures Reaches(x, z, n) && Stage(z, Open, cn, Pending, rest + [Ack(y.c.remoteSeq)], []) && z.s == y.s
  {
    z := ReachStep(x, y, n, ConnectFinish);
  }

  lemma SynIgnored(x: Sys, y: Sys, n: nat, cn: byte, first: Message, last: Message) returns (z: Sys)
    requires Reaches(x, y, n) && Stage(y, Open, cn, Pending, [first, last], []) && first.Syn?
    ensures Reaches(x, z, n) && Stage(z, Open, cn, Pending, [last], []) && z.s == y.s
  {
    z := ReachStep(x, y, n, DeliverUp);
  }

  lemma AckOpens(x: Sys, y: Sys, n: nat, cn: byte, last: Message) returns (z: Sys)
    requires Reaches(x, y, n) && Stage(y, Open, cn, Pending, [last], []) && last.Ack?
    ensures Reaches(x, z, n) && Stage(z, Open, cn, Open, [], []) && z.s.remoteSeq == y.s.remoteSeq
  {
    z := ReachStep(x, y, n, DeliverUp);
  }

  /** Both ends are open and neither is in a call, with empty links: what one of them writes is all that is on
      its way to the other. */
  ghost predicate Ready(x: Sys) {
    && x.c.state.Open? && x.s.state.Open? && !x.connecting && !x.accepting && x.up == [] && x.down == []
    && (forall n, bytes :: Apply(x, ServerData(n, bytes)).down == [Data(n, bytes)])
    && (forall n, bytes :: Messages(Apply(x, ClientData(n, bytes)).up) == [Data(n, bytes)])
  }

  /** accept returns, and leaves the server open. */
  lemma AcceptReturns(x: Sys, y: Sys, n: nat, cn: byte) returns (z: Sys)
    requires Reaches(x, y, n) && Stage(y, Open, cn, Open, [], [])
    ensures Reaches(x, z, n) && Ready(z) && z.s == y.s && z.c == y.c
  {
    z := ReachStep(x, y, n, AcceptFinish);
    forall k, bytes
      ensures Messages(Apply(z, ClientData(k, bytes)).up) == [Data(k, bytes)]
    {
    }
  }

  /** A run with exactly one call of connect() opens both ends, after which each can write. */
  lemma OneConnectOpens(x: Sys) returns (z: Sys)
    requires Fresh(x)
    ensures Reaches(x, z, 1) && Ready(z)
  {
    var cn, first := Next(x.c.seqNo), Syn(x.c.seqNo, x.c.port);
    ReachStart(x);
    z := Connect(x, x, 0, Closed, []);
    assert [] + [first] == [first] + [];
    z := Listen(x, z, 1, SynSent, cn, [first] + []);
    z := Answered(x, z, 1, cn, first, []);
    var last := Ack(z.c.remoteSeq);
    z := Finish(x, z, 1, cn, []);
    assert [] + [last] == [last];
    z := AckOpens(x, z, 1, cn, last);
    z := AcceptReturns(x, z, 1, cn);
  }

  /** A second call breaks the agreement when the server answers the first SYN: the client has by then sent
      two, and both ends still open. */
  lemma TwoConnectsDisagree(x: Sys) returns (z: Sys)
    requires Fresh(x)
    ensures Reaches(x, z, 2) && Ready(z)
    ensures z.c.seqNo == Next(Next(z.s.remoteSeq)) != Next(z.s.remoteSeq)
  {
    var cn, first, second := Next(x.c.seqNo), Syn(x.c.seqNo, x.c.port), Syn(Next(x.c.seqNo), x.c.port);
    ReachStart(x);
    z := Connect(x, x, 0, Closed, []);
    z := GiveUp(x, z, 1, cn, Closed, [] + [first]);
    z := Connect(x, z, 1, Closed, [] + [first]);
    assert [] + [first] + [second] == [first] + [second];
    cn := Next(cn);
    z := Listen(x, z, 2, SynSent, cn, [first] + [second]);
    z := Answered(x, z, 2, cn, first, [second]);
    var last := Ack(z.c.remoteSeq);
    z := Finish(x, z, 2, cn, [second]);
    assert [second] + [last] == [second, last];
    z := SynIgnored(x, z, 2, cn, second, last);
    z := AckOpens(x, z, 2, cn, last);
    z := AcceptReturns(x, z, 2, cn);
    NextDiffers(Next(x.c.seqNo));
  }

  lemma NextDiffers(n: byte)
    ensures Next(n) != n
  {
  }

  /** Exactly when the ends agree: in all runs without data and with at most `n` calls of connect() if and
      only if `n` is at most one. */
  lemma AgreeExactly(x: Sys, n: nat)
    requires Fresh(x)
    ensures (forall steps | Silent(steps) && Connects(steps) <= n :: Agree(Run(x, steps))) <==> n <= 1
  {
    if n <= 1 {
      forall steps | Silent(steps) && Connects(steps) <= n
        ensures Agree(Run(x, steps))
      {
        OpenEndsAgree(x, steps);
      }
    } else {
      var z := TwoConnectsDisagree(x);
      var steps :| Run(x, steps) == z && Silent(steps) && Connects(steps) == 2;
      assert Silent(steps) && Connects(steps) <= n && !Agree(Run(x, steps));
    }
  }
}
