/** Lossy FIFO links: queues of messages, of which any may be lost. */
module Links {
  import opened Endpoints

  /** A message on a link with a number the program does not carry: the unbounded number behind its 8-bit
      one, or the length of the history when it was sent. */
  datatype Tagged = Tagged(index: nat, msg: Message)

  function Tag(index: nat, ms: seq<Message>): (ts: seq<Tagged>)
    ensures |ts| == |ms| && forall i | 0 <= i < |ms| :: ts[i] == Tagged(index, ms[i])
  {
    seq(|ms|, i requires 0 <= i < |ms| => Tagged(index, ms[i]))
  }

  function Messages(ts: seq<Tagged>): (ms: seq<Message>)
    ensures |ms| == |ts| && forall i | 0 <= i < |ms| :: ms[i] == ts[i].msg
  {
    seq(|ts|, i requires 0 <= i < |ts| => ts[i].msg)
  }

  /** The queue after the loss of the message at position i. */
  function Drop<T>(q: seq<T>, i: nat): seq<T> {
    if i < |q| then q[..i] + q[i + 1..] else q
  }
}
