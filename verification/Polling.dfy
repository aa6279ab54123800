/** The polling loops: how far they read, and what connect and accept come to with the messages that
    arrive. */
module Polling {
  import opened Bytes
  import opened Endpoints
  import opened Streams

  predicate AllBatchesValid(batches: seq<seq<Incoming>>) {
    forall b | b in batches :: AllValid(b)
  }

  lemma {:induction false} JoinedValid(batches: seq<seq<Incoming>>)
    requires AllBatchesValid(batches)
    ensures AllValid(Joined(batches))
    decreases |batches|
  {
    if batches != [] {
      assert AllValid(batches[0]) && forall b | b in batches[1..] :: b in batches;
      JoinedValid(batches[1..]);
    }
  }

  lemma FirstBatch<T>(parts: seq<seq<T>>, n: nat)
    requires 0 < n <= |parts|
    ensures Joined(parts[..n]) == parts[0] + Joined(parts[1..][..n - 1])
  {
    assert parts[..n][1..] == parts[1..][..n - 1];
  }

  lemma {:induction false} ReadAppend(t: Trace, address: byte, role: Role, a: seq<Incoming>, b: seq<Incoming>)
    requires AllValid(a) && AllValid(b)
    ensures AllValid(a + b)
    ensures ReadAll(t, address, role, a + b) == ReadAll(ReadAll(t, address, role, a), address, role, b)
    decreases |b|
  {
    if b == [] {
      assert a + b == a;
    } else {
      var n := |b| - 1;
      ReadAppend(t, address, role, a, b[..n]);
      assert (a + b)[..|a + b| - 1] == a + b[..n];
    }
  }

  /** After the first `n` batches, read as one. */
  function ReadFirst(t: Trace, address: byte, role: Role, batches: seq<seq<Incoming>>, n: nat): Trace
    requires AllBatchesValid(batches) && n <= |batches|
  {
    JoinedValid(batches[..n]);
    ReadAll(t, address, role, Joined(batches[..n]))
  }

  lemma ReadNext(t: Trace, address: byte, role: Role, batches: seq<seq<Incoming>>, n: nat)
    requires AllBatchesValid(batches) && 0 < n <= |batches|
    ensures ReadFirst(t, address, role, batches, n) ==
      ReadFirst(ReadAll(t, address, role, batches[0]), address, role, batches[1..], n - 1)
  {
    FirstBatch(batches, n);
    JoinedValid(batches[1..][..n - 1]);
    ReadAppend(t, address, role, batches[0], Joined(batches[1..][..n - 1]));
  }

  lemma ReadShift(t: Trace, address: byte, role: Role, batches: seq<seq<Incoming>>)
    requires AllBatchesValid(batches) && batches != []
    ensures var u := ReadAll(t, address, role, batches[0]);
      && ReadFirst(u, address, role, batches[1..], 0) == u
      && forall i | 0 < i <= |batches| ::
        ReadFirst(t, address, role, batches, i) == ReadFirst(u, address, role, batches[1..], i - 1)
  {
    forall i | 0 < i <= |batches|
      ensures ReadFirst(t, address, role, batches, i) ==
        ReadFirst(ReadAll(t, address, role, batches[0]), address, role, batches[1..], i - 1)
    {
      ReadNext(t, address, role, batches, i);
    }
  }

  /** The first `n` batches are those up to the first one after which the end is one that stops the loop, or
      all of them. */
  predicate StopsAt(t: Trace, address: byte, role: Role, batches: seq<seq<Incoming>>, stop: Endpoint -> bool, n: nat)
    requires AllBatchesValid(batches)
  {
    && 0 < n <= |batches|
    && (forall i | 0 < i < n :: !stop(ReadFirst(t, address, role, batches, i).ep))
    && (n < |batches| ==> stop(ReadFirst(t, address, role, batches, n).ep))
  }

  lemma StopsLater(t: Trace, address: byte, role: Role, batches: seq<seq<Incoming>>, stop: Endpoint -> bool, n: nat)
    requires AllBatchesValid(batches) && batches != [] && !stop(ReadAll(t, address, role, batches[0]).ep)
    requires StopsAt(ReadAll(t, address, role, batches[0]), address, role, batches[1..], stop, n)
    ensures StopsAt(t, address, role, batches, stop, n + 1)
    ensures ReadFirst(t, address, role, batches, n + 1)
      == ReadFirst(ReadAll(t, address, role, batches[0]), address, role, batches[1..], n)
  {
    ReadShift(t, address, role, batches);
  }

  lemma StopsAtOnce(t: Trace, address: byte, role: Role, batches: seq<seq<Incoming>>, stop: Endpoint -> bool)
    requires AllBatchesValid(batches) && batches != []
    requires |batches| == 1 || stop(ReadAll(t, address, role, batches[0]).ep)
    ensures StopsAt(t, address, role, batches, stop, 1)
    ensures ReadFirst(t, address, role, batches, 1) == ReadAll(t, address, role, batches[0])
  {
    ReadShift(t, address, role, batches);
  }

  function StateIsNot(busy: ConnState): Endpoint -> bool {
    (e: Endpoint) => e.state != busy
  }

  function LastAckIs(n: byte): Endpoint -> bool {
    (e: Endpoint) => e.lastAck == n
  }

  /** connect and accept read the batches up to the first one after which the state is not `busy`; if that is
      the last one, or there is none, the timeout strikes behind the last. */
  lemma {:induction false} PollStops(t: Trace, address: byte, role: Role, busy: ConnState, batches: seq<seq<Incoming>>)
    returns (n: nat)
    requires AllBatchesValid(batches) && batches != []
    ensures StopsAt(t, address, role, batches, StateIsNot(busy), n)
    ensures Poll(t, address, role, busy, batches) == (ReadFirst(t, address, role, batches, n), n == |batches|)
    decreases |batches|
  {
    var u, stop := ReadAll(t, address, role, batches[0]), StateIsNot(busy);
    PollTurn(t, address, role, busy, batches);
    if |batches| == 1 || u.ep.state != busy {
      n := 1;
      StopsAtOnce(t, address, role, batches, stop);
    } else {
      var m := PollStops(u, address, role, busy, batches[1..]);
      StopsLater(t, address, role, batches, stop, m);
      n := m + 1;
    }
  }

  /** One turn of the loop. */
  lemma PollTurn(t: Trace, address: byte, role: Role, busy: ConnState, batches: seq<seq<Incoming>>)
    requires AllBatchesValid(batches) && batches != []
    ensures var u := ReadAll(t, address, role, batches[0]);
      Poll(t, address, role, busy, batches) ==
        if |batches| == 1 || u.ep.state != busy then (u, |batches| == 1)
        else Poll(u, address, role, busy, batches[1..])
  {
  }

  /** write's wait reads the batches up to the first one after which the ACK of the final number is the last
      one heard, or all. */
  lemma {:induction false} WaitStops(t: Trace, address: byte, role: Role, final: byte, polls: seq<seq<Incoming>>)
    returns (n: nat)
    requires AllBatchesValid(polls) && polls != []
    ensures StopsAt(t, address, role, polls, LastAckIs(final), n)
    ensures WaitTrace(t, address, role, final, polls) == ReadFirst(t, address, role, polls, n)
    decreases |polls|
  {
    var u, stop := ReadAll(t, address, role, polls[0]), LastAckIs(final);
    if |polls| == 1 || stop(u.ep) {
      n := 1;
      StopsAtOnce(t, address, role, polls, stop);
      assert WaitTrace(u, address, role, final, []) == u;
    } else {
      n := WaitStops(u, address, role, final, polls[1..]);
      StopsLater(t, address, role, polls, stop, n);
      n := n + 1;
    }
  }
}
