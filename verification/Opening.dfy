/** connect and accept: with which messages, in which batches, they succeed, and that they are runs of the
    handshake. */
module Opening {
  import opened Bytes
  import opened Endpoints
  import opened Handshake
  import opened Duplex
  import opened Crossing
  import opened Polling
  import opened Sides
  import opened Calls

  /** The state in which connect or accept polls, and the one in which it succeeds. */
  function Waits(role: Role): ConnState {
    if role.AsServer? then Pending else SynSent
  }

  function Done(role: Role): ConnState {
    if role.AsServer? then ConnState.Open else SynRecved
  }

  /** The message for which it waits. */
  predicate IsKey(role: Role, m: Message) {
    if role.AsServer? then m.Ack? else m.Syn?
  }

  predicate HasKey(role: Role, ms: seq<Message>) {
    exists i :: 0 <= i < |ms| && IsKey(role, ms[i])
  }

  predicate HasClose(ms: seq<Message>) {
    exists i :: 0 <= i < |ms| && ms[i].Close?
  }

  predicate Decisive(role: Role, ms: seq<Message>) {
    HasKey(role, ms) || HasClose(ms)
  }

  /** The first SYN in `ms` has number `n`. */
  predicate FirstSyn(ms: seq<Message>, n: byte) {
    exists k :: 0 <= k < |ms| && ms[k].Syn? && ms[k].seqNo == n && !HasKey(AsClient, ms[..k])
  }

  lemma HasAppend(role: Role, a: seq<Message>, b: seq<Message>)
    ensures HasClose(a + b) <==> HasClose(a) || HasClose(b)
    ensures HasKey(role, a + b) <==> HasKey(role, a) || HasKey(role, b)
  {
    assert forall i | 0 <= i < |a| :: (a + b)[i] == a[i];
    assert forall i | 0 <= i < |b| :: (a + b)[|a| + i] == b[i];
  }

  lemma HasLast(role: Role, ms: seq<Message>)
    requires ms != []
    ensures var n := |ms| - 1;
      && (HasClose(ms) <==> HasClose(ms[..n]) || ms[n].Close?)
      && (HasKey(role, ms) <==> HasKey(role, ms[..n]) || IsKey(role, ms[n]))
  {
    var n := |ms| - 1;
    assert ms == ms[..n] + [ms[n]];
    HasAppend(role, ms[..n], [ms[n]]);
    assert [ms[n]][0] == ms[n];
  }

  /** Where messages lead an end that waits: any CLOSE closes it, and without one the message for which it waits
      lets it succeed. */
  lemma {:induction false} WaitingTakes(role: Role, e: Endpoint, ms: seq<Message>)
    requires e.state == Waits(role)
    ensures TakesAll(role, e, ms).ep.state ==
      if HasClose(ms) then Closed else if HasKey(role, ms) then Done(role) else e.state
  {
    if ms != [] {
      WaitingTakes(role, e, ms[..|ms| - 1]);
      HasLast(role, ms);
    }
  }

  /** Meanwhile a client says nothing, and records the first SYN. */
  lemma {:induction false} SynSentTakes(e: Endpoint, ms: seq<Message>)
    requires e.state.SynSent?
    ensures var act := TakesAll(AsClient, e, ms);
      && act.out == [] && act.ep == e.(state := act.ep.state, remoteSeq := act.ep.remoteSeq)
      && (act.ep.state.SynRecved? ==> FirstSyn(ms, act.ep.remoteSeq))
  {
    if ms != [] {
      var n := |ms| - 1;
      SynSentTakes(e, ms[..n]);
      WaitingTakes(AsClient, e, ms[..n]);
      WaitingTakes(AsClient, e, ms);
      if TakesAll(AsClient, e, ms).ep.state.SynRecved? && HasKey(AsClient, ms[..n]) {
        HasLast(AsClient, ms);
        var k :| 0 <= k < n && ms[..n][k].Syn? && ms[..n][k].seqNo == TakesAll(AsClient, e, ms[..n]).ep.remoteSeq
                 && !HasKey(AsClient, ms[..n][..k]);
        assert ms[..n][..k] == ms[..k];
      }
    }
  }

  /** Reading the first `n` batches is taking their messages. */
  lemma FirstTaken(t: Trace, address: byte, role: Role, batches: seq<seq<Incoming>>, mss: seq<seq<Message>>, n: nat)
    requires BringsAll(batches, t.ep.remote, mss) && AllBatchesValid(batches) && n <= |batches|
    ensures ReadFirst(t, address, role, batches, n) == t.Then(TakesAll(role, t.ep, Joined(mss[..n])), address)
  {
    JoinedValid(batches[..n]);
    assert BringsAll(batches[..n], t.ep.remote, mss[..n]);
    JoinedBrings(batches[..n], t.ep.remote, mss[..n]);
    SameRemote(t, address, role, Joined(batches[..n]), Joined(mss[..n]));
  }

  lemma {:induction false} JoinedNext<T>(parts: seq<seq<T>>, n: nat)
    requires n < |parts|
    ensures Joined(parts[..n + 1]) == Joined(parts[..n]) + parts[n]
    decreases n
  {
    FirstBatch(parts, n + 1);
    if n > 0 {
      FirstBatch(parts, n);
      JoinedNext(parts[1..], n - 1);
      assert parts[0] + (Joined(parts[1..][..n - 1]) + parts[n]) == parts[0] + Joined(parts[1..][..n - 1]) + parts[n];
    }
  }

  lemma {:induction false} NoneBefore(role: Role, mss: seq<seq<Message>>, n: nat)
    requires n <= |mss|
    ensures Decisive(role, Joined(mss[..n])) <==> exists i :: 0 <= i < n && Decisive(role, mss[i])
    ensures HasClose(Joined(mss[..n])) <==> exists i :: 0 <= i < n && HasClose(mss[i])
  {
    if n > 0 {
      NoneBefore(role, mss, n - 1);
      JoinedNext(mss, n - 1);
      HasAppend(role, Joined(mss[..n - 1]), mss[n - 1]);
    }
  }

  /** The batch that decides: the first one with a CLOSE or the message waited for, if it is not the last. */
  predicate Settles(role: Role, mss: seq<seq<Message>>, n: nat) {
    n + 1 < |mss| && Decisive(role, mss[n]) && forall i | 0 <= i < n :: !Decisive(role, mss[i])
  }

  lemma BusyMeansNone(role: Role, e: Endpoint, ms: seq<Message>)
    requires e.state == Waits(role)
    ensures TakesAll(role, e, ms).ep.state == Waits(role) <==> !Decisive(role, ms)
  {
    WaitingTakes(role, e, ms);
  }

  lemma SettlesFrom(role: Role, mss: seq<seq<Message>>, n: nat)
    requires 0 < n <= |mss| && !Decisive(role, Joined(mss[..n - 1]))
    requires n < |mss| ==> Decisive(role, Joined(mss[..n]))
    ensures if n < |mss| then Settles(role, mss, n - 1) else forall i: nat :: !Settles(role, mss, i)
  {
    NoneBefore(role, mss, n);
    NoneBefore(role, mss, n - 1);
  }

  lemma DecidedAfter(t: Trace, address: byte, role: Role, batches: seq<seq<Incoming>>, mss: seq<seq<Message>>, n: nat)
    requires t.ep.state == Waits(role) && BringsAll(batches, t.ep.remote, mss) && AllBatchesValid(batches)
    requires n <= |batches|
    ensures ReadFirst(t, address, role, batches, n).ep.state == Waits(role) <==> !Decisive(role, Joined(mss[..n]))
  {
    FirstTaken(t, address, role, batches, mss, n);
    BusyMeansNone(role, t.ep, Joined(mss[..n]));
  }

  lemma PollReads(t: Trace, address: byte, role: Role, batches: seq<seq<Incoming>>, mss: seq<seq<Message>>)
    returns (n: nat)
    requires t.ep.state == Waits(role) && BringsAll(batches, t.ep.remote, mss) && AllBatchesValid(batches)
    requires batches != []
    ensures 0 < n <= |mss| && Poll(t, address, role, Waits(role), batches)
      == (t.Then(TakesAll(role, t.ep, Joined(mss[..n])), address), n == |mss|)
    ensures !Decisive(role, Joined(mss[..n - 1])) && (n < |mss| ==> Decisive(role, Joined(mss[..n])))
  {
    n := PollStops(t, address, role, Waits(role), batches);
    FirstTaken(t, address, role, batches, mss, n);
    DecidedAfter(t, address, role, batches, mss, n);
    DecidedAfter(t, address, role, batches, mss, n - 1);
    assert n == 1 ==> Joined(mss[..n - 1]) == [];
  }

  /** How far connect and accept read, in terms of the messages: to the batch that decides, or all. */
  lemma PollSettles(t: Trace, address: byte, role: Role, batches: seq<seq<Incoming>>, mss: seq<seq<Message>>)
    returns (n: nat)
    requires t.ep.state == Waits(role) && BringsAll(batches, t.ep.remote, mss) && AllBatchesValid(batches)
    ensures n <= |mss| && Poll(t, address, role, Waits(role), batches)
      == (t.Then(TakesAll(role, t.ep, Joined(mss[..n])), address), n == |mss|)
    ensures if n < |mss| then n > 0 && Settles(role, mss, n - 1) else forall i: nat :: !Settles(role, mss, i)
  {
    if batches == [] {
      n := 0;
      assert t.sent + Packed(t.ep, address, []) == t.sent;
    } else {
      n := PollReads(t, address, role, batches, mss);
      SettlesFrom(role, mss, n);
    }
  }

  lemma CloseDecides(role: Role, mss: seq<seq<Message>>, n: nat)
    requires Settles(role, mss, n)
    ensures HasClose(Joined(mss[..n + 1])) <==> HasClose(mss[n])
    ensures forall i: nat | Settles(role, mss, i) :: i == n
  {
    NoneBefore(role, mss, n + 1);
  }

  lemma FirstSynBehind(a: seq<Message>, b: seq<Message>, m: byte)
    requires FirstSyn(a + b, m) && !HasKey(AsClient, a)
    ensures FirstSyn(b, m)
  {
    var k :| 0 <= k < |a + b| && (a + b)[k].Syn? && (a + b)[k].seqNo == m && !HasKey(AsClient, (a + b)[..k]);
    assert forall i | 0 <= i < |a| :: (a + b)[i] == a[i] && !IsKey(AsClient, a[i]);
    assert k >= |a|;
    assert b[k - |a|] == (a + b)[k] && (a + b)[..k] == a + b[..k - |a|];
    HasAppend(AsClient, a, b[..k - |a|]);
  }

  lemma FirstSynLater(mss: seq<seq<Message>>, n: nat, m: byte)
    requires n < |mss| && FirstSyn(Joined(mss[..n + 1]), m) && !HasKey(AsClient, Joined(mss[..n]))
    ensures FirstSyn(mss[n], m)
  {
    JoinedNext(mss, n);
    FirstSynBehind(Joined(mss[..n]), mss[n], m);
  }

  /** The result of connect and accept, from the messages that arrive: the first batch with a CLOSE or the
      message waited for decides. If it is the last or there is none, the time is up; the call fails if there is
      a CLOSE in it, and otherwise succeeds. */
  function Verdict(role: Role, mss: seq<seq<Message>>): int {
    if exists n | 0 <= n < |mss| :: Settles(role, mss, n) && !HasClose(mss[n]) then NONE
    else if exists n | 0 <= n < |mss| :: Settles(role, mss, n) then BAD_STATE
    else TIMEOUT
  }

  lemma VerdictFrom(role: Role, e: Endpoint, mss: seq<seq<Message>>, n: nat)
    requires e.state == Waits(role) && n <= |mss|
    requires if n < |mss| then n > 0 && Settles(role, mss, n - 1) else forall i: nat :: !Settles(role, mss, i)
    ensures var s := TakesAll(role, e, Joined(mss[..n])).ep.state;
      Verdict(role, mss) == if n == |mss| then TIMEOUT else if s == Done(role) then NONE else BAD_STATE
    ensures n < |mss| ==> TakesAll(role, e, Joined(mss[..n])).ep.state in {Done(role), Closed}
  {
    WaitingTakes(role, e, Joined(mss[..n]));
    if n < |mss| {
      CloseDecides(role, mss, n - 1);
      NoneBefore(role, mss, n);
    }
  }

  /** connect when it has heard `ms` in its loop. */
  lemma ConnectEnds(t: Trace, address: byte, r: byte, port: byte, ms: seq<Message>)
    requires t.ep.state.Closed?
    ensures var begun, first := ConnectBegin(t.ep, r, port).ep, Syn(t.ep.seqNo, t.ep.port);
      var act, u := TakesAll(AsClient, begun, ms), t.Then(ConnectBegin(t.ep, r, port), address);
      && act.out == [] && act.ep == begun.(state := act.ep.state, remoteSeq := act.ep.remoteSeq)
      && u.Then(act, address) == Trace(act.ep, t.sent + Packed(act.ep, address, [first]))
      && (act.ep.state in {SynRecved, Closed} ==>
            u.Then(act, address).Then(ConnectEnd(act.ep), address) ==
            var done := act.ep.state.SynRecved?;
            Trace(act.ep.(state := if done then ConnState.Open else Closed),
                  t.sent + Packed(act.ep, address, [first] + if done then [Ack(act.ep.remoteSeq)] else [])))
  {
    var begun := ConnectBegin(t.ep, r, port).ep;
    var act, first := TakesAll(AsClient, begun, ms), [Syn(t.ep.seqNo, t.ep.port)];
    SynSentTakes(begun, ms);
    SentTogether(t, address, begun, act.ep, first, []);
    assert first + [] == first;
    var end := ConnectEnd(act.ep);
    SentTogether(t, address, act.ep, end.ep, first, end.out);
    PackedSame(act.ep, end.ep, address, first + end.out);
  }

  /** What connect comes to, exactly, whatever arrives in whatever batches: its result is the verdict. If it
      succeeds, the client is open, has recorded the first SYN of the deciding batch, and has sent its SYN and
      the ACK of that one; otherwise it is closed, and has sent its SYN only. */
  lemma ConnectExactly(t: Trace, address: byte, r: byte, port: byte, batches: seq<seq<Incoming>>,
                       mss: seq<seq<Message>>)
    requires t.ep.state.Closed? && BringsAll(batches, r, mss) && AllBatchesValid(batches)
    ensures var (u, err) := ConnectTrace(t, address, AsClient, r, port, batches);
      && err == Verdict(AsClient, mss)
      && u.ep == t.ep.(remote := r, remotePort := port, seqNo := Next(t.ep.seqNo), remoteSeq := u.ep.remoteSeq,
                       state := if err == NONE then ConnState.Open else Closed)
      && u.sent == t.sent + Packed(u.ep, address,
           [Syn(t.ep.seqNo, t.ep.port)] + if err == NONE then [Ack(u.ep.remoteSeq)] else [])
      && (err == NONE ==> forall n: nat | Settles(AsClient, mss, n) :: FirstSyn(mss[n], u.ep.remoteSeq))
  {
    var begun := t.Then(ConnectBegin(t.ep, r, port), address);
    var n := PollSettles(begun, address, AsClient, batches, mss);
    var ms := Joined(mss[..n]);
    var act := TakesAll(AsClient, begun.ep, ms);
    VerdictFrom(AsClient, begun.ep, mss, n);
    ConnectEnds(t, address, r, port, ms);
    var (u, err) := ConnectTrace(t, address, AsClient, r, port, batches);
    PackedSame(act.ep, u.ep, address, [Syn(t.ep.seqNo, t.ep.port)]);
    PackedSame(act.ep, u.ep, address, [Syn(t.ep.seqNo, t.ep.port), Ack(u.ep.remoteSeq)]);
    if err == NONE {
      RecordsFirst(begun.ep, mss, n);
    }
  }

  lemma RecordsFirst(e: Endpoint, mss: seq<seq<Message>>, n: nat)
    requires e.state.SynSent? && 0 < n <= |mss| && Settles(AsClient, mss, n - 1)
    requires TakesAll(AsClient, e, Joined(mss[..n])).ep.state.SynRecved?
    ensures forall i: nat | Settles(AsClient, mss, i) ::
      FirstSyn(mss[i], TakesAll(AsClient, e, Joined(mss[..n])).ep.remoteSeq)
  {
    SynSentTakes(e, Joined(mss[..n]));
    CloseDecides(AsClient, mss, n - 1);
    NoneBefore(AsClient, mss, n - 1);
    FirstSynLater(mss, n - 1, TakesAll(AsClient, e, Joined(mss[..n])).ep.remoteSeq);
  }

  lemma SentTogether(t: Trace, address: byte, e: Endpoint, f: Endpoint, a: seq<Message>, b: seq<Message>)
    requires e.remote == f.remote && e.remotePort == f.remotePort
    ensures t.sent + Packed(e, address, a) + Packed(f, address, b) == t.sent + Packed(f, address, a + b)
  {
    AnswersTogether(e, f, address, a, b);
  }

  /** accept when it has heard `ms` in its loop. */
  lemma AcceptEnds(t: Trace, address: byte, ms: seq<Message>, end: Act)
    requires t.ep.state.SynRecved?
    requires var act := TakesAll(AsServer, AcceptBegin(t.ep).ep, ms);
      end == Disconnect(act.ep) || end == AcceptEnd(act.ep)
    ensures var begun := AcceptBegin(t.ep);
      var act := TakesAll(AsServer, begun.ep, ms);
      t.Then(begun, address).Then(act, address).Then(end, address) ==
        Trace(end.ep, t.sent + Packed(end.ep, address, begun.out + act.out + end.out))
  {
    var begun := AcceptBegin(t.ep);
    var act := TakesAll(AsServer, begun.ep, ms);
    TakingKeeps(AsServer, begun.ep, ms);
    SentTogether(t, address, begun.ep, act.ep, begun.out, act.out);
    SentTogether(t, address, act.ep, end.ep, begun.out + act.out, end.out);
  }

  /** What accept comes to, exactly: its result is the verdict, where it hears the messages up to the deciding
      batch, or all. If it succeeds, the server is open and has sent its ACK and SYN and the answers to what it
      has heard; otherwise it is closed, and has also sent a CLOSE if the time was up and it had heard none. */
  lemma AcceptExactly(t: Trace, address: byte, batches: seq<seq<Incoming>>, mss: seq<seq<Message>>)
    returns (n: nat)
    requires t.ep.state.SynRecved? && BringsAll(batches, t.ep.remote, mss) && AllBatchesValid(batches)
    ensures n <= |mss| && if n < |mss| then n > 0 && Settles(AsServer, mss, n - 1)
                          else forall i: nat :: !Settles(AsServer, mss, i)
    ensures var (u, err) := AcceptTrace(t, address, AsServer, batches);
      var act := TakesAll(AsServer, AcceptBegin(t.ep).ep, Joined(mss[..n]));
      && err == Verdict(AsServer, mss)
      && u.ep == act.ep.(state := if err == NONE then ConnState.Open else Closed)
      && u.sent == t.sent + Packed(u.ep, address,
           [Ack(t.ep.remoteSeq), Syn(t.ep.seqNo, t.ep.port)] + act.out
           + if err == TIMEOUT && !HasClose(Joined(mss[..n])) then [Close(Next(t.ep.seqNo))] else [])
  {
    var begun := AcceptBegin(t.ep);
    n := PollSettles(t.Then(begun, address), address, AsServer, batches, mss);
    var ms := Joined(mss[..n]);
    var act := TakesAll(AsServer, begun.ep, ms);
    VerdictFrom(AsServer, begun.ep, mss, n);
    WaitingTakes(AsServer, begun.ep, ms);
    TakingKeeps(AsServer, begun.ep, ms);
    AcceptEnds(t, address, ms, if n == |mss| then Disconnect(act.ep) else AcceptEnd(act.ep));
  }

  /** The deeds of connect and of accept that hear `ms`. */
  function ConnectDeeds(ms: seq<Message>, timedOut: bool): seq<Deed> {
    [Do(Shake(ConnectStart))] + Heard(ms) + [Do(Shake(if timedOut then ConnectTimeout else ConnectFinish))]
  }

  function AcceptDeeds(ms: seq<Message>, timedOut: bool): seq<Deed> {
    [Do(Shake(AcceptStart))] + Heard(ms) + [Do(Shake(if timedOut then AcceptTimeout else AcceptFinish))]
  }

  lemma AloneThrice(role: Role, x: Both, a: Deed, ms: seq<Message>, b: Deed)
    ensures AloneAll(role, x, [a] + Heard(ms) + [b]) ==
      Alone(role, AloneAll(role, Alone(role, x, a), Heard(ms)), b)
  {
    OneMoreDeed(role, x, [a] + Heard(ms), b);
    AloneAppend(role, x, [a], Heard(ms));
    OneMoreDeed(role, x, [], a);
    assert [] + [a] == [a];
  }

  /** An end that runs no call. */
  predicate AtRest(s: Side) {
    !s.running && !(s.call.Some? && s.call.value.Busy())
  }

  lemma ConnectStarts(x: Both)
    requires AtRest(SideOf(AsClient, x)) && x.h.c.state.Closed?
    ensures var s := SideOf(AsClient, x);
      var y, act := Alone(AsClient, x, Do(Shake(ConnectStart))), ConnectBegin(s.ep, s.ep.remote, s.target);
      SideOf(AsClient, y) == s.(ep := act.ep, running := true) && Adds(AsClient, x, y, act.out)
  {
    MessagesAppend(x.h.up, |x.h.log|, ConnectBegin(x.h.c, x.h.c.remote, x.h.s.port).out);
  }

  lemma ConnectStops(x: Both, timedOut: bool)
    requires var s := SideOf(AsClient, x); s.running && !(s.call.Some? && s.call.value.Busy())
    requires timedOut || !x.h.c.state.SynSent?
    ensures var s, y := SideOf(AsClient, x),
                        Alone(AsClient, x, Do(Shake(if timedOut then ConnectTimeout else ConnectFinish)));
      var act := if timedOut then Act(s.ep.(state := Closed), []) else ConnectEnd(s.ep);
      SideOf(AsClient, y) == s.(ep := act.ep, running := false) && Adds(AsClient, x, y, act.out)
  {
    if !timedOut {
      MessagesAppend(x.h.up, |x.h.log|, ConnectEnd(x.h.c).out);
    }
  }

  /** Starting, hearing `ms` and stopping, one after another. */
  lemma ThreeParts(role: Role, x: Both, a: Deed, ms: seq<Message>, b: Deed, first: seq<Message>, last: seq<Message>)
    requires var y := Alone(role, x, a);
      var z := AloneAll(role, y, Heard(ms));
      Adds(role, x, y, first) && Adds(role, z, Alone(role, z, b), last)
    ensures var y, z := Alone(role, x, a), AloneAll(role, x, [a] + Heard(ms) + [b]);
      var act := TakesAll(role, End(role, y), ms);
      && SideOf(role, z) == SideOf(role, Alone(role, AloneAll(role, y, Heard(ms)), b))
      && SideOf(role, AloneAll(role, y, Heard(ms))) == SideOf(role, y).(ep := act.ep)
      && Adds(role, x, z, first + act.out + last)
  {
    var y := Alone(role, x, a);
    AloneThrice(role, x, a, ms, b);
    HearsAll(role, y, ms);
    AddsMore(Outbox(role, x), first, TakesAll(role, End(role, y), ms).out);
    AddsMore(Outbox(role, x), first + TakesAll(role, End(role, y), ms).out, last);
  }

  /** connect(r, port), in whatever batches its messages arrive, is a run of the handshake: the client starts to
      connect, hears what arrives up to the batch that decides, and finishes, or gives up. In every run of the
      two ends with these deeds, whatever the server does meanwhile and whatever is lost, the client is left as
      connect leaves it, and has sent what it says there. */
  lemma ConnectIsRun(t: Trace, address: byte, r: byte, port: byte, batches: seq<seq<Incoming>>,
                     mss: seq<seq<Message>>, x: Both)
    returns (n: nat)
    requires t.ep.state.Closed? && BringsAll(batches, r, mss) && AllBatchesValid(batches)
    requires AtRest(SideOf(AsClient, x)) && End(AsClient, x) == t.ep.(remote := r) && x.h.s.port == port
    ensures n <= |mss| && if n < |mss| then n > 0 && Settles(AsClient, mss, n - 1)
                          else forall i: nat :: !Settles(AsClient, mss, i)
    ensures var (u, err) := ConnectTrace(t, address, AsClient, r, port, batches);
      forall ms | Deeds(AsClient, x, ms) == ConnectDeeds(Joined(mss[..n]), n == |mss|) ::
        && AtRest(SideOf(AsClient, ProceedAll(x, ms))) && End(AsClient, ProceedAll(x, ms)) == u.ep
        && u.sent == t.sent + Packed(u.ep, address, Said(AsClient, x, ms))
  {
    var begun := ConnectBegin(t.ep, r, port);
    n := PollSettles(t.Then(begun, address), address, AsClient, batches, mss);
    var ms := Joined(mss[..n]);
    var act := TakesAll(AsClient, begun.ep, ms);
    var end := if n == |mss| then Act(act.ep.(state := Closed), []) else ConnectEnd(act.ep);
    VerdictFrom(AsClient, begun.ep, mss, n);
    ConnectEnds(t, address, r, port, ms);
    ConnectRuns(x, ms, n == |mss|, begun, end);
    EveryRun(AsClient, x, ConnectDeeds(ms, n == |mss|), begun.out + act.out + end.out);
    PackedSame(act.ep, end.ep, address, begun.out + act.out + end.out);
    assert begun.out + act.out == begun.out && begun.out + [] == begun.out;
  }

  lemma ConnectRuns(x: Both, ms: seq<Message>, timedOut: bool, begun: Act, end: Act)
    requires AtRest(SideOf(AsClient, x)) && x.h.c.state.Closed?
    requires begun == ConnectBegin(x.h.c, x.h.c.remote, x.h.s.port)
    requires var act := TakesAll(AsClient, begun.ep, ms);
      && (timedOut || !act.ep.state.SynSent?)
      && end == if timedOut then Act(act.ep.(state := Closed), []) else ConnectEnd(act.ep)
    ensures var y := AloneAll(AsClient, x, ConnectDeeds(ms, timedOut));
      && AtRest(SideOf(AsClient, y)) && End(AsClient, y) == end.ep
      && Adds(AsClient, x, y, begun.out + TakesAll(AsClient, begun.ep, ms).out + end.out)
  {
    var a, b := Do(Shake(ConnectStart)), Do(Shake(if timedOut then ConnectTimeout else ConnectFinish));
    ConnectStarts(x);
    HearsAll(AsClient, Alone(AsClient, x, a), ms);
    ConnectStops(AloneAll(AsClient, Alone(AsClient, x, a), Heard(ms)), timedOut);
    ThreeParts(AsClient, x, a, ms, b, begun.out, end.out);
  }

  lemma AcceptStarts(x: Both)
    requires AtRest(SideOf(AsServer, x)) && x.h.s.state.SynRecved?
    ensures var s, y, act := SideOf(AsServer, x), Alone(AsServer, x, Do(Shake(AcceptStart))), AcceptBegin(x.h.s);
      SideOf(AsServer, y) == s.(ep := act.ep, running := true) && Adds(AsServer, x, y, act.out)
  {
  }

  lemma AcceptStops(x: Both, timedOut: bool)
    requires var s := SideOf(AsServer, x); s.running && !(s.call.Some? && s.call.value.Busy())
    requires timedOut || !x.h.s.state.Pending?
    ensures var s, y := SideOf(AsServer, x),
                        Alone(AsServer, x, Do(Shake(if timedOut then AcceptTimeout else AcceptFinish)));
      var act := if timedOut then Disconnect(s.ep) else AcceptEnd(s.ep);
      SideOf(AsServer, y) == s.(ep := act.ep, running := false) && Adds(AsServer, x, y, act.out)
  {
  }

  lemma AcceptRuns(x: Both, ms: seq<Message>, timedOut: bool, begun: Act, end: Act)
    requires AtRest(SideOf(AsServer, x)) && x.h.s.state.SynRecved? && begun == AcceptBegin(x.h.s)
    requires var act := TakesAll(AsServer, begun.ep, ms);
      && (timedOut || !act.ep.state.Pending?)
      && end == if timedOut then Disconnect(act.ep) else AcceptEnd(act.ep)
    ensures var y := AloneAll(AsServer, x, AcceptDeeds(ms, timedOut));
      && AtRest(SideOf(AsServer, y)) && End(AsServer, y) == end.ep
      && Adds(AsServer, x, y, begun.out + TakesAll(AsServer, begun.ep, ms).out + end.out)
  {
    var a, b := Do(Shake(AcceptStart)), Do(Shake(if timedOut then AcceptTimeout else AcceptFinish));
    AcceptStarts(x);
    HearsAll(AsServer, Alone(AsServer, x, a), ms);
    AcceptStops(AloneAll(AsServer, Alone(AsServer, x, a), Heard(ms)), timedOut);
    ThreeParts(AsServer, x, a, ms, b, begun.out, end.out);
  }

  /** accept is a run of the handshake in the same way. */
  lemma AcceptIsRun(t: Trace, address: byte, batches: seq<seq<Incoming>>, mss: seq<seq<Message>>, x: Both)
    returns (n: nat)
    requires t.ep.state.SynRecved? && BringsAll(batches, t.ep.remote, mss) && AllBatchesValid(batches)
    requires AtRest(SideOf(AsServer, x)) && End(AsServer, x) == t.ep
    ensures n <= |mss| && if n < |mss| then n > 0 && Settles(AsServer, mss, n - 1)
                          else forall i: nat :: !Settles(AsServer, mss, i)
    ensures var (u, err) := AcceptTrace(t, address, AsServer, batches);
      forall ms | Deeds(AsServer, x, ms) == AcceptDeeds(Joined(mss[..n]), n == |mss|) ::
        && AtRest(SideOf(AsServer, ProceedAll(x, ms))) && End(AsServer, ProceedAll(x, ms)) == u.ep
        && u.sent == t.sent + Packed(u.ep, address, Said(AsServer, x, ms))
  {
    var begun := AcceptBegin(t.ep);
    n := PollSettles(t.Then(begun, address), address, AsServer, batches, mss);
    var ms := Joined(mss[..n]);
    var act := TakesAll(AsServer, begun.ep, ms);
    var end := if n == |mss| then Disconnect(act.ep) else AcceptEnd(act.ep);
    VerdictFrom(AsServer, begun.ep, mss, n);
    AcceptEnds(t, address, ms, end);
    AcceptRuns(x, ms, n == |mss|, begun, end);
    EveryRun(AsServer, x, AcceptDeeds(ms, n == |mss|), begun.out + act.out + end.out);
  }
}
