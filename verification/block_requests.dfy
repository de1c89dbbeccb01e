/** The serving side's single-consumer queue of block requests, as both
    `core.BlockRequestQueue` and `network.BlockRequestHandler` keep it:
    each request is paired with the connection it arrived on; `addRequest`
    always appends; the processor takes the head only while running;
    `shutdown` stops it even with requests pending. The two differ in what
    a failed file read does to the processor (`Variant`). Connections are
    named by their identity `NodeConnection.LinkId`. */
module BlockRequests {
  import opened Common
  import opened Protocol
  import NodeConnection

  datatype Pending = Pending(request: FileBlockRequestMessage, connection: NodeConnection.LinkId)

  datatype Queue = Queue(requests: seq<Pending>, running: bool)

  /** A new queue: empty and running. */
  const Empty: Queue := Queue([], true)

  /** `addRequest(request, connection)`: the pair goes to the tail, also
      after shutdown. */
  function AddRequest(q: Queue, request: FileBlockRequestMessage, connection: NodeConnection.LinkId): (r: Queue)
    ensures r.requests == q.requests + [Pending(request, connection)]
    ensures r.running == q.running
  {
    q.(requests := q.requests + [Pending(request, connection)])
  }

  /** The processor leaves its wait: a request is queued or the queue was
      shut down. */
  predicate CanTake(q: Queue) {
    |q.requests| > 0 || !q.running
  }

  datatype Taken = Taken(queue: Queue, pending: Option<Pending>)

  /** The processor's locked block: while running it polls the head;
      after shutdown it takes nothing and leaves the loop. */
  function Take(q: Queue): (r: Taken)
    requires CanTake(q)
    ensures !q.running ==> r == Taken(q, None)
    ensures q.running ==> r.pending == Some(q.requests[0]) && [q.requests[0]] + r.queue.requests == q.requests
    ensures r.queue.running == q.running
  {
    if !q.running then Taken(q, None) else Taken(q.(requests := q.requests[1..]), Some(q.requests[0]))
  }

  /** `shutdown()` */
  function Shutdown(q: Queue): (r: Queue)
    ensures !r.running && r.requests == q.requests
  {
    q.(running := false)
  }

  /** `getPendingCount()` */
  function PendingCount(q: Queue): nat {
    |q.requests|
  }

  /** The pending count follows the queue: one more per `addRequest`, one
      less per request the running processor takes. */
  lemma PendingCountTracks(q: Queue, request: FileBlockRequestMessage, connection: NodeConnection.LinkId)
    ensures PendingCount(AddRequest(q, request, connection)) == PendingCount(q) + 1
    ensures q.running && |q.requests| > 0 ==> PendingCount(Take(q).queue) == PendingCount(q) - 1
    ensures !q.running ==> PendingCount(Take(q).queue) == PendingCount(q)
  {
  }

  /** An answer to send: the message and the connection to send it on. */
  datatype Reply = Reply(connection: NodeConnection.LinkId, answer: FileBlockAnswerMessage)

  /** Which class runs the processor. `BlockRequestQueue` catches every
      `Exception` around a request; `BlockRequestHandler` catches only
      `IOException`, so any other exception ends its thread. */
  datatype Variant = QueueVariant | HandlerVariant

  /** Whether the processor's `catch` handles `e`. */
  predicate Caught(v: Variant, e: Error) {
    v == QueueVariant || e == IOException
  }

  /** What serving one request gave: the answer to send, if any, and
      whether the processor thread is still alive. */
  datatype Processed = Processed(reply: Option<Reply>, survives: bool)

  /** `processRequest` / `handleBlockRequestDirectly`: the file read is the
      oracle `read`, failing with `IOException` (no such file, a failed
      read) or `NegativeArraySizeException` (a negative length, or a read
      at end of file). On success the bytes are answered, with the
      request's offset, on the connection the request came from. A failed
      read sends nothing; the processor carries on exactly when its
      `catch` handles the error. */
  function ProcessRequest(v: Variant, p: Pending, read: Result<seq<byte>>): (r: Processed)
    ensures r.reply.None? <==> read.Err?
    ensures r.reply.Some? ==> r.reply.value.connection == p.connection
    ensures r.reply.Some? ==> r.reply.value.answer == FileBlockAnswerMessage(read.value, p.request.offset)
    ensures !r.survives <==> read.Err? && !Caught(v, read.error)
  {
    if read.Err? then Processed(None, Caught(v, read.error))
    else Processed(Some(Reply(p.connection, FileBlockAnswerMessage(read.value, p.request.offset))), true)
  }

  /** The processor's loop, with no request arriving meanwhile: it takes
      and serves the head, the `i`-th fetch giving the `i`-th request's
      bytes, until the fetches run out, the queue is empty or shut down, or
      an uncaught error ends the thread. */
  datatype Served = Served(queue: Queue, replies: seq<Reply>, alive: bool)

  function Serve(v: Variant, q: Queue, fetches: seq<Result<seq<byte>>>): (r: Served)
    ensures r.queue.running == q.running
    ensures |r.queue.requests| <= |q.requests|
    ensures r.queue.requests == q.requests[|q.requests| - |r.queue.requests|..]
    decreases |fetches|
  {
    if fetches == [] || !q.running || q.requests == [] then Served(q, [], true)
    else
      var t := Take(q);
      var done := ProcessRequest(v, t.pending.value, fetches[0]);
      if !done.survives then Served(t.queue, [], false)
      else
        var rest := Serve(v, t.queue, fetches[1..]);
        Served(rest.queue, (if done.reply.Some? then [done.reply.value] else []) + rest.replies, rest.alive)
  }

  /** Whether `read` is an error that ends the processor of `v`. */
  predicate Fatal(v: Variant, read: Result<seq<byte>>) {
    read.Err? && !Caught(v, read.error)
  }

  /** `BlockRequestHandler`: after a request whose read throws a runtime
      exception the thread is gone and every later request stays queued,
      never served. */
  lemma {:induction false} HandlerStopsAtRuntimeError(q: Queue, fetches: seq<Result<seq<byte>>>, k: nat)
    requires q.running && k < |fetches| && k < |q.requests|
    requires fetches[k].Err? && fetches[k].error != IOException
    requires forall i :: 0 <= i < k ==> !Fatal(HandlerVariant, fetches[i])
    ensures var r := Serve(HandlerVariant, q, fetches);
      !r.alive && r.queue.requests == q.requests[k + 1..]
    decreases k
  {
    if k > 0 {
      assert !Fatal(HandlerVariant, fetches[0]);
      var t := Take(q);
      forall i | 0 <= i < k - 1
        ensures !Fatal(HandlerVariant, fetches[1..][i])
      {
        assert fetches[1..][i] == fetches[i + 1];
      }
      HandlerStopsAtRuntimeError(t.queue, fetches[1..], k - 1);
      assert t.queue.requests[k..] == q.requests[k + 1..];
    }
  }

  /** `BlockRequestQueue`: no read failure stops the processor; given a
      read for each queued request it serves them all, sending exactly the
      answers owed to those whose read succeeded, in queue order. */
  lemma {:induction false} QueueServesAll(q: Queue, fetches: seq<Result<seq<byte>>>)
    requires q.running && |fetches| == |q.requests|
    ensures var r := Serve(QueueVariant, q, fetches);
      && r.alive && r.queue.requests == []
      && |r.replies| == Succeeded(fetches)
      && r.replies == Answers(q.requests, fetches)
    decreases |fetches|
  {
    if fetches != [] {
      var t := Take(q);
      QueueServesAll(t.queue, fetches[1..]);
      SucceededCons(fetches);
    }
  }

  /** The answers owed for `ps` given their reads, in queue order: one per
      successful read, carrying its bytes and the request's offset, on the
      request's own connection. */
  function Answers(ps: seq<Pending>, fetches: seq<Result<seq<byte>>>): seq<Reply>
    requires |ps| == |fetches|
    decreases |ps|
  {
    if ps == [] then []
    else
      (if fetches[0].Ok? then [Reply(ps[0].connection, FileBlockAnswerMessage(fetches[0].value, ps[0].request.offset))] else [])
      + Answers(ps[1..], fetches[1..])
  }

  /** How many of `fetches` succeed. */
  function Succeeded(fetches: seq<Result<seq<byte>>>): nat
    decreases |fetches|
  {
    if fetches == [] then 0 else Succeeded(fetches[..|fetches| - 1]) + (if fetches[|fetches| - 1].Ok? then 1 else 0)
  }

  lemma {:induction false} SucceededCons(fetches: seq<Result<seq<byte>>>)
    requires fetches != []
    ensures Succeeded(fetches) == (if fetches[0].Ok? then 1 else 0) + Succeeded(fetches[1..])
    decreases |fetches|
  {
    if |fetches| > 1 {
      var init := fetches[..|fetches| - 1];
      SucceededCons(init);
      assert init[1..] == fetches[1..][..|fetches[1..]| - 1];
      assert init[0] == fetches[0];
    } else {
      assert fetches[1..] == [];
    }
  }

  /** The operations on the queue; a take that is not enabled stands for
      the processor still blocked and has no effect. */
  datatype Op = AddOp(request: FileBlockRequestMessage, connection: NodeConnection.LinkId) | TakeOp | ShutdownOp

  datatype Run = Run(queue: Queue, taken: seq<Pending>)

  function Apply(r: Run, op: Op): Run {
    match op
    case AddOp(request, connection) => Run(AddRequest(r.queue, request, connection), r.taken)
    case ShutdownOp => Run(Shutdown(r.queue), r.taken)
    case TakeOp =>
      if !CanTake(r.queue) then r
      else
        var t := Take(r.queue);
        Run(t.queue, r.taken + (if t.pending.Some? then [t.pending.value] else []))
  }

  /** The queue after `ops`, and the requests the processor took, in order. */
  function Replay(q: Queue, ops: seq<Op>): Run
    decreases |ops|
  {
    if ops == [] then Run(q, []) else Apply(Replay(q, ops[..|ops| - 1]), ops[|ops| - 1])
  }

  /** The pairs added by `ops`, in order. */
  function Added(ops: seq<Op>): seq<Pending>
    decreases |ops|
  {
    if ops == [] then []
    else
      var op := ops[|ops| - 1];
      Added(ops[..|ops| - 1]) + (if op.AddOp? then [Pending(op.request, op.connection)] else [])
  }

  /** After shutdown nothing is taken, while additions still pile up. */
  lemma {:induction false} NothingTakenAfterShutdown(q: Queue, ops: seq<Op>)
    requires !q.running
    ensures Replay(q, ops) == Run(Queue(q.requests + Added(ops), false), [])
    decreases |ops|
  {
    if ops != [] {
      NothingTakenAfterShutdown(q, ops[..|ops| - 1]);
    }
  }

  /** FIFO: while running, the requests taken followed by those still
      queued are the initial queue followed by the additions, each still
      paired with its own connection. */
  lemma {:induction false} TakenInArrivalOrder(q: Queue, ops: seq<Op>)
    requires q.running
    requires forall i :: 0 <= i < |ops| ==> !ops[i].ShutdownOp?
    ensures Replay(q, ops).queue.running
    ensures Replay(q, ops).taken + Replay(q, ops).queue.requests == q.requests + Added(ops)
    decreases |ops|
  {
    if ops != [] {
      var init := ops[..|ops| - 1];
      TakenInArrivalOrder(q, init);
      var r := Replay(q, init);
      match ops[|ops| - 1]
      case AddOp(request, connection) =>
        assert r.taken + (r.queue.requests + [Pending(request, connection)])
            == (r.taken + r.queue.requests) + [Pending(request, connection)];
      case TakeOp =>
        if CanTake(r.queue) {
          assert (r.taken + [r.queue.requests[0]]) + r.queue.requests[1..] == r.taken + r.queue.requests;
        }
    }
  }
}
