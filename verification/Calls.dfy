/** The calls of a SocketStream as deeds of one end in module Duplex, in whatever batches its messages arrive. */
module Calls {
  import opened Bytes
  import opened Packets
  import opened Endpoints
  import opened Writing
  import opened Duplex
  import opened Crossing
  import opened Polling
  import opened Sides
  import opened Streams

  function Heard(ms: seq<Message>): (ds: seq<Deed>)
    ensures |ds| == |ms|
  {
    seq(|ms|, i requires 0 <= i < |ms| => Hear(ms[i]))
  }

  lemma HeardMore(ms: seq<Message>)
    requires ms != []
    ensures Heard(ms) == Heard(ms[..|ms| - 1]) + [Hear(ms[|ms| - 1])]
  {
  }

  lemma {:induction false} HearsAll(role: Role, x: Both, ms: seq<Message>)
    ensures var y, act := AloneAll(role, x, Heard(ms)), TakesAll(role, End(role, x), ms);
      SideOf(role, y) == SideOf(role, x).(ep := act.ep) && Adds(role, x, y, act.out)
  {
    if ms != [] {
      var n := |ms| - 1;
      HearsAll(role, x, ms[..n]);
      HeardMore(ms);
      OneMoreDeed(role, x, Heard(ms[..n]), Hear(ms[n]));
      Hears(role, AloneAll(role, x, Heard(ms[..n])), ms[n]);
      var before := TakesAll(role, End(role, x), ms[..n]);
      AddsMore(Outbox(role, x), before.out, Takes(role, before.ep, ms[n]).out);
    }
  }

  /** Where a call begins: what has been sent and said before it. */
  datatype Outset = Outset(role: Role, address: byte, sent: seq<Packet>, said: seq<Message>)
  {
    /** The object in `t` and the end in `x` are in the same state, and what the object has sent since then is
        what the end has said, addressed to its remote. */
    predicate Mirrors(t: Trace, x: Both) {
      && t.ep == End(role, x) && said <= Outbox(role, x)
      && t.sent == sent + Packed(t.ep, address, Outbox(role, x)[|said|..])
    }
  }

  lemma SuffixGrows(said: seq<Message>, box: seq<Message>, out: seq<Message>)
    requires said <= box
    ensures said <= box + out && (box + out)[|said|..] == box[|said|..] + out
  {
  }

  lemma PackedSame(e: Endpoint, f: Endpoint, address: byte, ms: seq<Message>)
    requires e.remote == f.remote && e.remotePort == f.remotePort
    ensures Packed(e, address, ms) == Packed(f, address, ms)
  {
  }

  lemma MirrorsMore(o: Outset, t: Trace, x: Both, u: Trace, y: Both, e: Endpoint, out: seq<Message>)
    requires o.Mirrors(t, x) && Adds(o.role, x, y, out)
    requires u == Trace(End(o.role, y), t.sent + Packed(e, o.address, out))
    requires t.ep.remote == u.ep.remote == e.remote && t.ep.remotePort == u.ep.remotePort == e.remotePort
    ensures o.Mirrors(u, y)
  {
    var box := Outbox(o.role, x);
    SuffixGrows(o.said, box, out);
    PackedSame(t.ep, u.ep, o.address, box[|o.said|..]);
    PackedSame(e, u.ep, o.address, out);
    PackedAppend(u.ep, o.address, box[|o.said|..], out);
  }

  /** Reading a batch is hearing its messages. */
  lemma BatchMirrors(o: Outset, t: Trace, x: Both, ins: seq<Incoming>, ms: seq<Message>)
    requires o.Mirrors(t, x) && Brings(ins, t.ep.remote, ms) && AllValid(ins) && !t.ep.state.Listening?
    ensures var u, y := ReadAll(t, o.address, o.role, ins), AloneAll(o.role, x, Heard(ms));
      && o.Mirrors(u, y) && SideOf(o.role, y) == SideOf(o.role, x).(ep := u.ep)
      && u.ep.remote == t.ep.remote && u.ep.remotePort == t.ep.remotePort && u.ep.seqNo == t.ep.seqNo
      && !u.ep.state.Listening?
  {
    var act := TakesAll(o.role, t.ep, ms);
    SameRemote(t, o.address, o.role, ins, ms);
    HearsAll(o.role, x, ms);
    TakingKeeps(o.role, t.ep, ms);
    MirrorsMore(o, t, x, t.Then(act, o.address), AloneAll(o.role, x, Heard(ms)), act.ep, act.out);
  }

  /** The messages that arrive in one turn of write's loop, as the datagrams of a Turn bring them. */
  datatype Arrivals = Arrivals(before: seq<seq<Message>>, polls: seq<seq<Message>>)
  {
    function Before(i: nat): seq<Message> {
      if i < |before| then before[i] else []
    }
  }

  predicate BringsAll(batches: seq<seq<Incoming>>, r: byte, mss: seq<seq<Message>>) {
    |batches| == |mss| && forall i | 0 <= i < |batches| :: Brings(batches[i], r, mss[i])
  }

  predicate BringsTurn(turn: Turn, r: byte, a: Arrivals) {
    BringsAll(turn.before, r, a.before) && BringsAll(turn.polls, r, a.polls) && turn.Valid()
  }

  function WriteOf(role: Role, bytes: seq<byte>): Move {
    if role.AsServer? then ServerWrite(bytes) else ClientWrite(bytes)
  }

  function SendOf(role: Role): Move {
    if role.AsServer? then ServerSend else ClientSend
  }

  function EndWaitOf(role: Role): Move {
    if role.AsServer? then ServerEndWait else ClientEndWait
  }

  /** What stays the same while an end writes. */
  predicate Steady(t: Trace, u: Trace) {
    && u.ep.remote == t.ep.remote && u.ep.remotePort == t.ep.remotePort && u.ep.seqNo == t.ep.seqNo
    && !u.ep.state.Listening?
  }

  /** The end in `x` is in the middle of a call of write, like the object in `t`. */
  predicate MidWrite(o: Outset, t: Trace, x: Both, bytes: seq<byte>, w: Writer) {
    o.Mirrors(t, x) && SideOf(o.role, x).call == Some(Call(bytes, w)) && !t.ep.state.Listening?
  }

  lemma BurstIsSane(w: Writer, k: nat, bytes: seq<byte>)
    requires AtBurstStart(w, |bytes|) && w.result.None? && k <= w.toSend
    ensures k <= BURST
    ensures var call := Call(bytes, AfterFrames(w, k, |bytes|)); call.Sane() && call.Busy()
  {
    BurstStartForm(w, |bytes|);
    AfterFramesStays(w, k, |bytes|);
  }

  /** A frame goes out. */
  lemma FrameMirrors(o: Outset, t: Trace, x: Both, w: Writer, k: nat, bytes: seq<byte>)
    requires AtBurstStart(w, |bytes|) && w.result.None? && k < w.toSend <= BURST
    requires MidWrite(o, t, x, bytes, AfterFrames(w, k, |bytes|))
    ensures var u, y := t.Then(Act(t.ep, [BurstFrame(w, k, bytes)]), o.address), Alone(o.role, x, Do(SendOf(o.role)));
      MidWrite(o, u, y, bytes, AfterFrames(w, k + 1, |bytes|))
  {
    var v := AfterFrames(w, k, |bytes|);
    BurstIsSane(w, k, bytes);
    BurstStartForm(w, |bytes|);
    FrameForm(w, k, |bytes|);
    FrameSent(w, k, bytes);
    var y, out := Alone(o.role, x, Do(SendOf(o.role))), [BurstFrame(w, k, bytes)];
    Sends(o.role, x);
    MirrorsMore(o, t, x, t.Then(Act(t.ep, out), o.address), y, t.ep, out);
  }

  lemma Sends(role: Role, x: Both)
    requires CanSend(SideOf(role, x).call)
    ensures var y, call := Alone(role, x, Do(SendOf(role))), SideOf(role, x).call.value;
      && SideOf(role, y) == SideOf(role, x).(call := Some(AfterSend(call)))
      && Adds(role, x, y, [FrameOf(call.w, call.bytes)])
  {
    var call := SideOf(role, x).call.value;
    MessagesAppend(x.h.up, |x.h.log|, [FrameOf(call.w, call.bytes)]);
  }

  function BurstDeeds(role: Role, a: Arrivals, k: nat): seq<Deed> {
    if k == 0 then [] else BurstDeeds(role, a, k - 1) + Heard(a.Before(k - 1)) + [Do(SendOf(role))]
  }

  lemma PauseMirrors(o: Outset, t: Trace, x: Both, w: Writer, k: nat, turn: Turn, a: Arrivals, bytes: seq<byte>)
    requires AtBurstStart(w, |bytes|) && w.result.None? && k < w.toSend <= BURST && BringsTurn(turn, t.ep.remote, a)
    requires MidWrite(o, t, x, bytes, AfterFrames(w, k, |bytes|))
    ensures var u := FrameTrace(t, o.address, o.role, w, k, turn, bytes);
      var y := Alone(o.role, AloneAll(o.role, x, Heard(a.Before(k))), Do(SendOf(o.role)));
      Steady(t, u) && MidWrite(o, u, y, bytes, AfterFrames(w, k + 1, |bytes|))
  {
    var ins, ms := turn.Before(k), a.Before(k);
    assert Brings(ins, t.ep.remote, ms);
    BatchMirrors(o, t, x, ins, ms);
    var u := ReadAll(t, o.address, o.role, ins);
    FrameMirrors(o, u, AloneAll(o.role, x, Heard(ms)), w, k, bytes);
    assert FrameTrace(t, o.address, o.role, w, k, turn, bytes)
      == u.Then(Act(u.ep, [BurstFrame(w, k, bytes)]), o.address);
  }

  /** The first `k` frames of a burst, with all that arrives before them, are its deeds. */
  predicate BurstPlayed(o: Outset, t: Trace, x: Both, w: Writer, k: nat, turn: Turn, a: Arrivals, bytes: seq<byte>)
    requires k <= BURST && w.initial <= |bytes| && turn.Valid()
  {
    var u := BurstTrace(t, o.address, o.role, w, k, turn, bytes);
    Steady(t, u) && MidWrite(o, u, AloneAll(o.role, x, BurstDeeds(o.role, a, k)), bytes, AfterFrames(w, k, |bytes|))
  }

  lemma NothingPlayed(o: Outset, t: Trace, x: Both, w: Writer, turn: Turn, a: Arrivals, bytes: seq<byte>)
    requires AtBurstStart(w, |bytes|) && MidWrite(o, t, x, bytes, w) && turn.Valid()
    ensures BurstPlayed(o, t, x, w, 0, turn, a, bytes)
  {
    BurstStartForm(w, |bytes|);
  }

  lemma PausePlayed(o: Outset, t: Trace, x: Both, w: Writer, k: nat, turn: Turn, a: Arrivals, bytes: seq<byte>)
    requires AtBurstStart(w, |bytes|) && w.result.None? && k < w.toSend <= BURST && BringsTurn(turn, t.ep.remote, a)
    requires BurstPlayed(o, t, x, w, k, turn, a, bytes)
    ensures BurstPlayed(o, t, x, w, k + 1, turn, a, bytes)
  {
    var ds, heard := BurstDeeds(o.role, a, k), Heard(a.Before(k));
    PauseMirrors(o, BurstTrace(t, o.address, o.role, w, k, turn, bytes), AloneAll(o.role, x, ds), w, k, turn, a, bytes);
    AloneAppend(o.role, x, ds, heard);
    OneMoreDeed(o.role, x, ds + heard, Do(SendOf(o.role)));
  }

  lemma {:induction false} RestPlayed(o: Outset, t: Trace, x: Both, w: Writer, i: nat, k: nat, turn: Turn, a: Arrivals,
                                      bytes: seq<byte>)
    requires AtBurstStart(w, |bytes|) && w.result.None? && i <= k <= w.toSend <= BURST
    requires BringsTurn(turn, t.ep.remote, a) && BurstPlayed(o, t, x, w, i, turn, a, bytes)
    ensures BurstPlayed(o, t, x, w, k, turn, a, bytes)
    decreases k - i
  {
    if i < k {
      PausePlayed(o, t, x, w, i, turn, a, bytes);
      RestPlayed(o, t, x, w, i + 1, k, turn, a, bytes);
    }
  }

  /** A burst with all that arrives in it. */
  lemma BurstMirrors(o: Outset, t: Trace, x: Both, w: Writer, turn: Turn, a: Arrivals, bytes: seq<byte>)
    requires AtBurstStart(w, |bytes|) && w.result.None? && w.toSend <= BURST && MidWrite(o, t, x, bytes, w)
    requires BringsTurn(turn, t.ep.remote, a)
    ensures BurstPlayed(o, t, x, w, w.toSend, turn, a, bytes)
  {
    NothingPlayed(o, t, x, w, turn, a, bytes);
    RestPlayed(o, t, x, w, 0, w.toSend, turn, a, bytes);
  }

  lemma {:induction false} JoinedBrings(batches: seq<seq<Incoming>>, r: byte, mss: seq<seq<Message>>)
    requires BringsAll(batches, r, mss)
    ensures Brings(Joined(batches), r, Joined(mss))
    decreases |batches|
  {
    if batches != [] {
      assert Brings(batches[0], r, mss[0]);
      assert forall i | 0 <= i < |batches[1..]| :: batches[1..][i] == batches[i + 1] && mss[1..][i] == mss[i + 1];
      JoinedBrings(batches[1..], r, mss[1..]);
      BringsTogether(batches[0], Joined(batches[1..]), r, mss[0], Joined(mss[1..]));
    }
  }

  lemma BringsTogether(a: seq<Incoming>, b: seq<Incoming>, r: byte, ms: seq<Message>, ns: seq<Message>)
    requires Brings(a, r, ms) && Brings(b, r, ns)
    ensures Brings(a + b, r, ms + ns)
  {
    forall i | 0 <= i < |a + b|
      ensures Bears((a + b)[i], r, (ms + ns)[i])
    {
      assert i < |a| ==> Bears(a[i], r, ms[i]);
      assert i >= |a| ==> Bears(b[i - |a|], r, ns[i - |a|]);
    }
  }

  /** Reading the first `n` batches is hearing their messages. */
  lemma FirstMirrors(o: Outset, t: Trace, x: Both, batches: seq<seq<Incoming>>, mss: seq<seq<Message>>, n: nat)
    requires o.Mirrors(t, x) && BringsAll(batches, t.ep.remote, mss) && AllBatchesValid(batches) && n <= |batches|
    requires !t.ep.state.Listening?
    ensures var u, y := ReadFirst(t, o.address, o.role, batches, n), AloneAll(o.role, x, Heard(Joined(mss[..n])));
      o.Mirrors(u, y) && SideOf(o.role, y) == SideOf(o.role, x).(ep := u.ep) && Steady(t, u)
  {
    JoinedValid(batches[..n]);
    assert BringsAll(batches[..n], t.ep.remote, mss[..n]);
    JoinedBrings(batches[..n], t.ep.remote, mss[..n]);
    BatchMirrors(o, t, x, Joined(batches[..n]), Joined(mss[..n]));
  }

  /** How many frames a turn sends, and how many batches its wait reads. */
  datatype Pace = Pace(frames: nat, read: nat)

  function TurnDeeds(role: Role, a: Arrivals, p: Pace): seq<Deed>
    requires p.read <= |a.polls|
  {
    BurstDeeds(role, a, p.frames) + Heard(Joined(a.polls[..p.read])) + [Do(EndWaitOf(role))]
  }

  /** The wait, up to the first batch after which the burst's last ACK is the last one heard. */
  lemma WaitMirrors(o: Outset, t: Trace, x: Both, final: byte, polls: seq<seq<Incoming>>, mss: seq<seq<Message>>)
    returns (n: nat)
    requires o.Mirrors(t, x) && BringsAll(polls, t.ep.remote, mss) && AllBatchesValid(polls)
    requires !t.ep.state.Listening?
    ensures n <= |polls|
    ensures polls != [] ==> StopsAt(t, o.address, o.role, polls, LastAckIs(final), n)
    ensures var u, y := WaitTrace(t, o.address, o.role, final, polls), AloneAll(o.role, x, Heard(Joined(mss[..n])));
      o.Mirrors(u, y) && SideOf(o.role, y) == SideOf(o.role, x).(ep := u.ep) && Steady(t, u)
  {
    if polls == [] {
      n := 0;
    } else {
      n := WaitStops(t, o.address, o.role, final, polls);
    }
    FirstMirrors(o, t, x, polls, mss, n);
  }

  lemma Concludes(role: Role, x: Both)
    requires CanEnd(SideOf(role, x).call)
    ensures var call := AfterWait(SideOf(role, x).call.value, End(role, x).lastAck);
      var y := Alone(role, x, Do(EndWaitOf(role)));
      && SideOf(role, y) == SideOf(role, x).(ep := End(role, x).(seqNo := call.w.seqNo), call := Some(call))
      && Outbox(role, y) == Outbox(role, x)
  {
  }

  /** The end of the wait. */
  lemma EndMirrors(o: Outset, t: Trace, x: Both, w: Writer, bytes: seq<byte>)
    requires AtBurstStart(w, |bytes|) && w.result.None? && w.toSend <= BURST
    requires MidWrite(o, t, x, bytes, AfterFrames(w, w.toSend, |bytes|))
    ensures forall i | 0 <= i < BURST :: AfterFrames(w, w.toSend, |bytes|).slots[i].pos <= |bytes|
    ensures var v := Conclude(AfterFrames(w, w.toSend, |bytes|), t.ep.lastAck, 0, |bytes|);
      MidWrite(o, t.(ep := t.ep.(seqNo := v.seqNo)), Alone(o.role, x, Do(EndWaitOf(o.role))), bytes, v)
  {
    BurstIsSane(w, w.toSend, bytes);
    Concludes(o.role, x);
    var v := Conclude(AfterFrames(w, w.toSend, |bytes|), t.ep.lastAck, 0, |bytes|);
    PackedSame(t.ep, t.ep.(seqNo := v.seqNo), o.address, Outbox(o.role, x)[|o.said|..]);
  }

  /** One turn of write's loop. */
  lemma TurnMirrors(o: Outset, t: Trace, x: Both, w: Writer, turn: Turn, a: Arrivals, bytes: seq<byte>)
    returns (p: Pace)
    requires AtBurstStart(w, |bytes|) && w.result.None? && MidWrite(o, t, x, bytes, w)
    requires BringsTurn(turn, t.ep.remote, a)
    ensures p.frames == w.toSend && p.read <= |a.polls|
    ensures var (u, v) := Turned(t, o.address, o.role, w, turn, bytes);
      MidWrite(o, u, AloneAll(o.role, x, TurnDeeds(o.role, a, p)), bytes, v) && u.ep.remote == t.ep.remote
  {
    BurstStartForm(w, |bytes|);
    BurstMirrors(o, t, x, w, turn, a, bytes);
    var t1 := BurstTrace(t, o.address, o.role, w, w.toSend, turn, bytes);
    var ds := BurstDeeds(o.role, a, w.toSend);
    var n := WaitMirrors(o, t1, AloneAll(o.role, x, ds), FinalSeq(w), turn.polls, a.polls);
    p := Pace(w.toSend, n);
    var heard := Heard(Joined(a.polls[..n]));
    AloneAppend(o.role, x, ds, heard);
    var t2 := TurnTrace(t, o.address, o.role, w, turn, bytes);
    EndMirrors(o, t2, AloneAll(o.role, x, ds + heard), w, bytes);
    OneMoreDeed(o.role, x, ds + heard, Do(EndWaitOf(o.role)));
  }

  predicate InReach(ars: seq<Arrivals>, ps: seq<Pace>) {
    |ps| <= |ars| && forall i | 0 <= i < |ps| :: ps[i].read <= |ars[i].polls|
  }

  function LoopDeeds(role: Role, ars: seq<Arrivals>, ps: seq<Pace>): seq<Deed>
    requires InReach(ars, ps)
    decreases |ps|
  {
    if ps == [] then [] else TurnDeeds(role, ars[0], ps[0]) + LoopDeeds(role, ars[1..], ps[1..])
  }

  predicate BringsTurns(turns: seq<Turn>, r: byte, ars: seq<Arrivals>) {
    |turns| == |ars| && forall i | 0 <= i < |turns| :: BringsTurn(turns[i], r, ars[i])
  }

  /** write's loop. */
  lemma {:induction false} LoopMirrors(o: Outset, t: Trace, x: Both, w: Writer, turns: seq<Turn>, ars: seq<Arrivals>,
                                       bytes: seq<byte>)
    returns (ps: seq<Pace>)
    requires w.result.None? ==> AtBurstStart(w, |bytes|)
    requires MidWrite(o, t, x, bytes, w) && BringsTurns(turns, t.ep.remote, ars)
    requires forall i | 0 <= i < |turns| :: turns[i].Valid()
    ensures InReach(ars, ps)
    ensures var (u, acks) := WriteTrace(t, o.address, o.role, w, bytes, turns);
      && MidWrite(o, u, AloneAll(o.role, x, LoopDeeds(o.role, ars, ps)), bytes, WriteOn(w, |bytes|, acks))
      && u.ep.remote == t.ep.remote
    decreases |turns|
  {
    ps := [];
    if w.result.None? && turns != [] {
      assert BringsTurn(turns[0], t.ep.remote, ars[0]);
      var (u, v) := Turned(t, o.address, o.role, w, turns[0], bytes);
      TurnForm(t, o.address, o.role, w, turns[0], bytes);
      var p := TurnMirrors(o, t, x, w, turns[0], ars[0], bytes);
      var y := AloneAll(o.role, x, TurnDeeds(o.role, ars[0], p));
      var rest := LoopMirrors(o, u, y, v, turns[1..], ars[1..], bytes);
      ps := [p] + rest;
      LoopMore(o.role, x, ars, p, rest);
    }
  }

  lemma LoopMore(role: Role, x: Both, ars: seq<Arrivals>, p: Pace, ps: seq<Pace>)
    requires ars != [] && p.read <= |ars[0].polls| && InReach(ars[1..], ps)
    ensures InReach(ars, [p] + ps)
    ensures AloneAll(role, x, LoopDeeds(role, ars, [p] + ps)) ==
      AloneAll(role, AloneAll(role, x, TurnDeeds(role, ars[0], p)), LoopDeeds(role, ars[1..], ps))
  {
    assert ([p] + ps)[1..] == ps;
    AloneAppend(role, x, TurnDeeds(role, ars[0], p), LoopDeeds(role, ars[1..], ps));
  }

  /** The end is open and idle, like the object in `t`. */
  predicate Idle(role: Role, t: Trace, x: Both) {
    var s := SideOf(role, x);
    t.ep == s.ep && s.ep.state.Open? && !s.running && !(s.call.Some? && s.call.value.Busy())
  }

  /** The deeds of a whole call of write. */
  function WriteDeeds(role: Role, bytes: seq<byte>, ars: seq<Arrivals>, ps: seq<Pace>): seq<Deed>
    requires InReach(ars, ps)
  {
    [Do(WriteOf(role, bytes))] + LoopDeeds(role, ars, ps)
  }

  lemma Begins(role: Role, t: Trace, x: Both, bytes: seq<byte>)
    requires Idle(role, t, x) && bytes != []
    ensures var y, w := AloneAll(role, x, [Do(WriteOf(role, bytes))]), Start(t.ep.seqNo, |bytes|);
      SideOf(role, y) == SideOf(role, x).(call := Some(Call(bytes, w))) && Outbox(role, y) == Outbox(role, x)
  {
    assert [Do(WriteOf(role, bytes))][..0] == [];
  }

  /** write, in whatever batches its messages arrive, is a run of module Duplex: write is called, the frames
      of each burst go out with what is heard before each, the wait hears batches up to the first one after
      which the last ACK is the burst's last, and ends. */
  lemma WriteIsRun(role: Role, t: Trace, address: byte, x: Both, bytes: seq<byte>, turns: seq<Turn>,
                   ars: seq<Arrivals>)
    returns (ps: seq<Pace>)
    requires Idle(role, t, x) && bytes != [] && BringsTurns(turns, t.ep.remote, ars)
    requires forall i | 0 <= i < |turns| :: turns[i].Valid()
    ensures InReach(ars, ps)
    ensures var o, w := Outset(role, address, t.sent, Outbox(role, x)), Start(t.ep.seqNo, |bytes|);
      var (u, acks) := WriteTrace(t, address, role, w, bytes, turns);
      && MidWrite(o, u, AloneAll(role, x, WriteDeeds(role, bytes, ars, ps)), bytes, WriteOn(w, |bytes|, acks))
      && u.ep.remote == t.ep.remote
  {
    var o, w := Outset(role, address, t.sent, Outbox(role, x)), Start(t.ep.seqNo, |bytes|);
    Begins(role, t, x, bytes);
    assert t.sent + Packed(t.ep, address, []) == t.sent;
    ps := LoopMirrors(o, t, AloneAll(role, x, [Do(WriteOf(role, bytes))]), w, turns, ars, bytes);
    AloneAppend(role, x, [Do(WriteOf(role, bytes))], LoopDeeds(role, ars, ps));
  }

  lemma MirrorsMeans(o: Outset, u: Trace, x: Both, y: Both) returns (out: seq<Message>)
    requires o.Mirrors(u, y) && o.said == Outbox(o.role, x)
    ensures Adds(o.role, x, y, out) && u.ep == End(o.role, y) && u.sent == o.sent + Packed(u.ep, o.address, out)
  {
    out := Outbox(o.role, y)[|o.said|..];
  }

  /** So in every run of the two ends in which an end has these deeds, whatever the other end does meanwhile and
      whatever is lost, the end is where write leaves it, with write's result, and write has sent exactly what
      the end says there, from its address to its remote. */
  lemma WriteInEveryRun(role: Role, t: Trace, address: byte, x: Both, bytes: seq<byte>, turns: seq<Turn>,
                        ars: seq<Arrivals>)
    returns (ps: seq<Pace>)
    requires Idle(role, t, x) && bytes != [] && BringsTurns(turns, t.ep.remote, ars)
    requires forall i | 0 <= i < |turns| :: turns[i].Valid()
    ensures InReach(ars, ps)
    ensures var w := Start(t.ep.seqNo, |bytes|);
      var (u, acks) := WriteTrace(t, address, role, w, bytes, turns);
      forall ms | Deeds(role, x, ms) == WriteDeeds(role, bytes, ars, ps) ::
        && u.ep == End(role, ProceedAll(x, ms)) && u.ep.remote == t.ep.remote
        && u.sent == t.sent + Packed(u.ep, address, Said(role, x, ms))
        && SideOf(role, ProceedAll(x, ms)).call == Some(Call(bytes, WriteOn(w, |bytes|, acks)))
  {
    ps := WriteIsRun(role, t, address, x, bytes, turns, ars);
    var (u, acks) := WriteTrace(t, address, role, Start(t.ep.seqNo, |bytes|), bytes, turns);
    var ds := WriteDeeds(role, bytes, ars, ps);
    var out := MirrorsMeans(Outset(role, address, t.sent, Outbox(role, x)), u, x, AloneAll(role, x, ds));
    EveryRun(role, x, ds, out);
  }

  /** A frame goes from `address` to the remote and port that the end had when it was made, behind the answers to
      what is read meanwhile; and whoever hears it there hears that frame. */
  lemma FrameCrosses(t: Trace, address: byte, role: Role, w: Writer, i: nat, turn: Turn, bytes: seq<byte>, d: Incoming)
    requires w.initial <= |bytes| && turn.Valid()
    ensures var u, read := FrameTrace(t, address, role, w, i, turn, bytes), ReadAll(t, address, role, turn.Before(i));
      && u.ep == read.ep && |u.sent| == |read.sent| + 1 && u.sent[..|read.sent|] == read.sent
      && Addressed(u.sent[|read.sent|], t.ep.remote, t.ep.remotePort)
      && (HeardAs(u.sent[|read.sent|], d) ==> Bears(d, address, BurstFrame(w, i, bytes)))
  {
  }

  function FramesOf(w: Writer, k: nat, bytes: seq<byte>): (ms: seq<Message>)
    requires w.initial <= |bytes|
    ensures |ms| == k
  {
    seq(k, i requires 0 <= i < k => BurstFrame(w, i, bytes))
  }

  lemma {:induction false} QuietBurst(t: Trace, address: byte, role: Role, w: Writer, k: nat, turn: Turn,
                                      bytes: seq<byte>)
    requires w.initial <= |bytes| && turn.Valid() && turn.before == []
    ensures BurstTrace(t, address, role, w, k, turn, bytes)
      == t.(sent := t.sent + Packed(t.ep, address, FramesOf(w, k, bytes)))
  {
    if k == 0 {
      assert t.sent + Packed(t.ep, address, FramesOf(w, 0, bytes)) == t.sent;
    } else {
      QuietBurst(t, address, role, w, k - 1, turn, bytes);
      QuietFrame(t, address, role, FramesOf(w, k - 1, bytes), w, k - 1, turn, bytes);
      assert FramesOf(w, k, bytes) == FramesOf(w, k - 1, bytes) + [BurstFrame(w, k - 1, bytes)];
    }
  }

  lemma QuietFrame(t: Trace, address: byte, role: Role, ms: seq<Message>, w: Writer, i: nat, turn: Turn,
                   bytes: seq<byte>)
    requires w.initial <= |bytes| && turn.Valid() && turn.before == []
    ensures FrameTrace(t.(sent := t.sent + Packed(t.ep, address, ms)), address, role, w, i, turn, bytes)
      == t.(sent := t.sent + Packed(t.ep, address, ms + [BurstFrame(w, i, bytes)]))
  {
    PackedAppend(t.ep, address, ms, [BurstFrame(w, i, bytes)]);
  }

  /** The datagrams of a burst, dispatched at the paired end, are its frames, taken there in order. */
  lemma BurstCrosses(t: Trace, address: byte, role: Role, w: Writer, turn: Turn, bytes: seq<byte>, s: Trace,
                     there: byte, ins: seq<Incoming>)
    requires AtBurstStart(w, |bytes|) && turn.Valid() && turn.before == [] && Paired(t.ep, address, s.ep, there)
    requires var u := BurstTrace(t, address, role, w, w.toSend, turn, bytes);
      |t.sent| <= |u.sent| && Arrive(u.sent[|t.sent|..], there, s.ep.port, ins)
    ensures AllValid(ins) && ReadAll(s, there, if role.AsServer? then AsClient else AsServer, ins) ==
      s.Then(TakesAll(if role.AsServer? then AsClient else AsServer, s.ep, FramesOf(w, w.toSend, bytes)), there)
  {
    var u, ms := BurstTrace(t, address, role, w, w.toSend, turn, bytes), FramesOf(w, w.toSend, bytes);
    QuietBurst(t, address, role, w, w.toSend, turn, bytes);
    assert u.sent[|t.sent|..] == Packed(t.ep, address, ms);
    PairsTalk(t.ep, address, s, there, if role.AsServer? then AsClient else AsServer, ms, ins);
  }

  /** And so is all that a whole write sends, with its answers to what arrives meanwhile: the paired end takes
      what the end says in the run. */
  lemma WriteCrosses(role: Role, sent: seq<Packet>, u: Trace, address: byte, said: seq<Message>, s: Trace, there: byte,
                     ins: seq<Incoming>)
    requires u.sent == sent + Packed(u.ep, address, said) && Paired(u.ep, address, s.ep, there)
    requires Arrive(u.sent[|sent|..], there, s.ep.port, ins)
    ensures AllValid(ins) && ReadAll(s, there, role, ins) == s.Then(TakesAll(role, s.ep, said), there)
  {
    assert u.sent[|sent|..] == Packed(u.ep, address, said);
    PairsTalk(u.ep, address, s, there, role, said, ins);
  }
}
