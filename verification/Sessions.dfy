/** Several writes one after another over the same links. */
module Sessions {
  import opened Bytes
  import opened Endpoints
  import opened Transfer

  /** A step of one write, or the beginning of the next one with other bytes. */
  datatype Move = Inner(step: Step) | NewWrite(bytes: seq<byte>)

  /** The write under way and the net. The rest is history: the unbounded number behind which the write
      began, the bytes of those before it that returned their length, and whether one before it failed. */
  datatype Session = Session(k: Job, x: Net, begun: nat, written: seq<byte>, failed: bool)

  /** write is called again when it has returned; links and receiver are as it left them. */
  function Proceed(e: Session, m: Move): Session {
    match m
    case Inner(step) => e.(x := Apply(e.k, e.x, step))
    case NewWrite(bytes) =>
      if e.x.w.result.None? || bytes == [] then e
      else
        var next := e.(k := e.k.(bytes := bytes),
                       x := e.x.(w := Writing.Start(e.x.w.seqNo, |bytes|), answered := false));
        if e.x.w.result == Some(|e.k.bytes|) then next.(begun := e.begun + Total(e.k), written := e.written + e.k.bytes)
        else next.(failed := true)
  }

  function ProceedAll(e: Session, ms: seq<Move>): Session {
    if ms == [] then e else Proceed(ProceedAll(e, ms[..|ms| - 1]), ms[|ms| - 1])
  }

  /** The first write has just been entered behind number `s`, and the last ACK heard was `a`. */
  function Opening(k: Job, s: byte, a: byte, r: Endpoint): Session {
    Session(k, Entered(k, s, a, r), s, [], false)
  }

  /** The runs of one write are sessions. */
  lemma {:induction false} RunIsSession(k: Job, s: byte, a: byte, r: Endpoint, steps: seq<Step>) returns (ms: seq<Move>)
    ensures ProceedAll(Opening(k, s, a, r), ms) == Opening(k, s, a, r).(x := Run(k, Entered(k, s, a, r), steps))
  {
    ms := [];
    if steps != [] {
      var before := RunIsSession(k, s, a, r, steps[..|steps| - 1]);
      ms := before + [Inner(steps[|steps| - 1])];
      assert ms[..|ms| - 1] == before;
    }
  }
}
