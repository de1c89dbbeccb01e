/** `sync.MyThreadPool`: a fixed set of workers pulling from one FIFO task
    queue, with a shutdown flag. A worker's wait for work is enabledness
    (`CanTake`); running a task is outside the model except for whether it
    threw. */
module ThreadPool {
  import opened Common

  datatype Pool<T> = Pool(workers: nat, tasks: seq<T>, shutdown: bool)

  /** The constructor: `size` workers, an empty queue; a negative size makes
      `new Thread[size]` throw. */
  function New<T>(size: int): (r: Result<Pool<T>>)
    ensures r.Err? <==> size < 0
    ensures r.Err? ==> r.error == NegativeArraySizeException
    ensures r.Ok? ==> r.value.workers == size && r.value.tasks == [] && !r.value.shutdown
  {
    if size < 0 then Err(NegativeArraySizeException) else Ok(Pool(size, [], false))
  }

  /** `submit(task)`: appended at the tail before shutdown, dropped after. */
  function Submit<T>(p: Pool<T>, task: T): (r: Pool<T>)
    ensures p.shutdown ==> r == p
    ensures !p.shutdown ==> r.tasks == p.tasks + [task] && r.workers == p.workers && !r.shutdown
  {
    if p.shutdown then p else p.(tasks := p.tasks + [task])
  }

  /** A worker leaves its inner wait: there is a task or the pool is shut
      down. */
  predicate CanTake<T>(p: Pool<T>) {
    |p.tasks| > 0 || p.shutdown
  }

  datatype Taken<T> = Taken(pool: Pool<T>, task: Option<T>)

  /** The worker's synchronized block: it polls the head only when the pool
      is not shut down. */
  function Take<T>(p: Pool<T>): (r: Taken<T>)
    requires CanTake(p)
    ensures p.shutdown ==> r == Taken(p, None)
    ensures !p.shutdown ==> && r.task == Some(p.tasks[0]) && [p.tasks[0]] + r.pool.tasks == p.tasks
                            && r.pool.workers == p.workers && !r.pool.shutdown
  {
    if p.shutdown then Taken(p, None) else Taken(p.(tasks := p.tasks[1..]), Some(p.tasks[0]))
  }

  /** `shutdown()`: sets the flag; the queued tasks stay but are never run. */
  function Shutdown<T>(p: Pool<T>): (r: Pool<T>)
    ensures r.shutdown && r.tasks == p.tasks && r.workers == p.workers
  {
    p.(shutdown := true)
  }

  /** One round of a worker's loop, entered because the pool was not shut
      down: take a task and run it, the run ending in `runOutcome`. */
  datatype Round<T> = Round(pool: Pool<T>, ran: Option<T>, continues: bool)

  /** An exception from the task is swallowed: whether the worker goes
      round again depends on the shutdown flag alone. The body does not
      read `runOutcome` on purpose: that is how the model states Java's
      `catch (Exception e)` around `task.run()`, which every modelled error
      passes through. */
  function WorkerRound<T>(p: Pool<T>, runOutcome: Outcome): (r: Round<T>)
    requires !p.shutdown && CanTake(p)
    ensures r.ran == Some(p.tasks[0]) && [p.tasks[0]] + r.pool.tasks == p.tasks
    ensures r.continues
  {
    var t := Take(p);
    Round(t.pool, t.task, !t.pool.shutdown)
  }

  /** Every exception a task can raise here is an `Exception`, which the
      worker's `catch` swallows: the round, and the worker's going on, are
      the same whichever way the task ended. */
  lemma RoundIgnoresRunOutcome<T>(p: Pool<T>, ended: Outcome, other: Outcome)
    requires !p.shutdown && CanTake(p)
    ensures WorkerRound(p, ended) == WorkerRound(p, other)
    ensures WorkerRound(p, Threw(IllegalArgumentException)).continues
  {
  }

  /** The operations a client and the workers apply to the pool. A take
      that is not enabled stands for a worker still blocked and has no
      effect. */
  datatype Op<T> = SubmitOp(task: T) | TakeOp | ShutdownOp

  datatype Run<T> = Run(pool: Pool<T>, taken: seq<T>)

  function Apply<T>(r: Run<T>, op: Op<T>): Run<T> {
    match op
    case SubmitOp(task) => Run(Submit(r.pool, task), r.taken)
    case ShutdownOp => Run(Shutdown(r.pool), r.taken)
    case TakeOp =>
      if !CanTake(r.pool) then r
      else
        var t := Take(r.pool);
        Run(t.pool, r.taken + (if t.task.Some? then [t.task.value] else []))
  }

  /** The pool after `ops`, and the tasks the workers took, in order. */
  function Replay<T>(p: Pool<T>, ops: seq<Op<T>>): Run<T>
    decreases |ops|
  {
    if ops == [] then Run(p, []) else Apply(Replay(p, ops[..|ops| - 1]), ops[|ops| - 1])
  }

  /** The tasks submitted by `ops`, in order. */
  function Submitted<T>(ops: seq<Op<T>>): seq<T>
    decreases |ops|
  {
    if ops == [] then []
    else Submitted(ops[..|ops| - 1]) + (if ops[|ops| - 1].SubmitOp? then [ops[|ops| - 1].task] else [])
  }

  /** Once shut down, the pool never hands out a task and never accepts
      one: the pending tasks are discarded. */
  lemma {:induction false} NothingTakenAfterShutdown<T>(p: Pool<T>, ops: seq<Op<T>>)
    requires p.shutdown
    ensures Replay(p, ops) == Run(p, [])
    decreases |ops|
  {
    if ops != [] {
      NothingTakenAfterShutdown(p, ops[..|ops| - 1]);
    }
  }

  /** FIFO: without a shutdown, the tasks taken followed by those still
      queued are exactly the initial queue followed by the submissions. */
  lemma {:induction false} TakenInSubmissionOrder<T>(p: Pool<T>, ops: seq<Op<T>>)
    requires !p.shutdown
    requires forall i :: 0 <= i < |ops| ==> !ops[i].ShutdownOp?
    ensures !Replay(p, ops).pool.shutdown
    ensures Replay(p, ops).taken + Replay(p, ops).pool.tasks == p.tasks + Submitted(ops)
    decreases |ops|
  {
    if ops != [] {
      var init := ops[..|ops| - 1];
      TakenInSubmissionOrder(p, init);
      var r := Replay(p, init);
      match ops[|ops| - 1]
      case SubmitOp(task) =>
        assert r.taken + (r.pool.tasks + [task]) == (r.taken + r.pool.tasks) + [task];
      case TakeOp =>
        if CanTake(r.pool) {
          assert (r.taken + [r.pool.tasks[0]]) + r.pool.tasks[1..] == r.taken + r.pool.tasks;
        }
    }
  }
}
