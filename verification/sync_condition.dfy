/** `sync.MyCondition`: a condition variable paired with one `sync.MyLock`
    and a FIFO queue of waiting threads, every step of which runs under the
    condition's own Java monitor. `await` is split into three steps:
    `Await` (enqueue and release the lock, then `wait()`, which frees the
    monitor), `Reenter` (a dequeued waiter takes the monitor back on its
    way out of `wait()`) and `Resume` (still inside `synchronized (this)`,
    it re-acquires the lock). Between the last two the waiter holds the
    monitor while it waits for the lock, so no other thread can `signal`,
    `signalAll` or `await` until it gets the lock: if the lock's current
    owner calls one of them before unlocking, both threads are stuck
    (`BargingDeadlock`). */
module SyncCondition {
  import opened Common
  import SyncLock

  /** `waiters` is the queue; `woken` the threads dequeued but still inside
      `wait()`; `relocking` the thread, if any, that holds the monitor
      while it waits in `lock.lock()`. */
  datatype Condition = Condition(lock: SyncLock.Lock, waiters: seq<ThreadId>, woken: set<ThreadId>,
                                 relocking: Option<ThreadId>)

  /** `new MyCondition(lock)` */
  function New(l: SyncLock.Lock): (r: Condition)
    ensures r.lock == l && r.waiters == [] && r.woken == {} && MonitorFree(r)
  {
    Condition(l, [], {}, None)
  }

  /** No thread runs `synchronized (this)` across steps: `signal`,
      `signalAll` and the body of `await` may enter the monitor. */
  predicate MonitorFree(c: Condition) {
    c.relocking.None?
  }

  /** `t` is somewhere inside `await()`. */
  predicate InAwait(c: Condition, t: ThreadId) {
    t in c.waiters || t in c.woken || c.relocking == Some(t)
  }

  /** The invariant every reachable condition keeps: each thread is in at
      most one phase of `await`, and at most once in the queue. */
  predicate Valid(c: Condition) {
    && (forall i, j :: 0 <= i < j < |c.waiters| ==> c.waiters[i] != c.waiters[j])
    && (forall i :: 0 <= i < |c.waiters| ==> c.waiters[i] !in c.woken)
    && (c.relocking.Some? ==> c.relocking.value !in c.woken && c.relocking.value !in c.waiters)
  }

  /** `await()` by `t` up to its `wait()`: without the lock it throws
      `IllegalMonitorStateException` and changes nothing (this check runs
      before the monitor is entered); otherwise, once the monitor is free,
      `t` joins the tail of the queue and the lock is released once, so a
      nested hold stays with `t`. */
  function Await(c: Condition, t: ThreadId): (r: Step<Condition>)
    requires !SyncLock.IsHeldBy(c.lock, t) || MonitorFree(c)
    ensures r.outcome.Threw? <==> !SyncLock.IsHeldBy(c.lock, t)
    ensures r.outcome.Threw? ==> r.outcome.error == IllegalMonitorStateException && r.state == c
    ensures r.outcome.Done? ==> r.state.waiters == c.waiters + [t]
    ensures r.outcome.Done? ==> r.state.lock == SyncLock.Unlock(c.lock, t).state
    ensures r.outcome.Done? && c.lock.lockCount > 1 ==> SyncLock.IsHeldBy(r.state.lock, t)
    ensures r.outcome.Done? ==> r.state.woken == c.woken && MonitorFree(r.state)
  {
    if !SyncLock.IsHeldBy(c.lock, t) then Step(c, Threw(IllegalMonitorStateException))
    else Step(c.(lock := SyncLock.Unlock(c.lock, t).state, waiters := c.waiters + [t]), Done)
  }

  /** A dequeued waiter may leave `wait()` once the monitor is free. */
  predicate CanReenter(c: Condition, t: ThreadId) {
    t in c.woken && MonitorFree(c)
  }

  /** The waiter `t` returns from `wait()`, finds itself no longer queued
      and, holding the monitor, enters `lock.lock()`. */
  function Reenter(c: Condition, t: ThreadId): (r: Condition)
    requires CanReenter(c, t)
    ensures r.relocking == Some(t) && t !in r.woken && r.woken + {t} == c.woken
    ensures r.lock == c.lock && r.waiters == c.waiters
  {
    c.(woken := c.woken - {t}, relocking := Some(t))
  }

  /** The re-locking waiter `t` gets past `lock.lock()`: the lock is free
      or still (nested) its own. */
  predicate CanResume(c: Condition, t: ThreadId) {
    c.relocking == Some(t) && SyncLock.CanLock(c.lock, t)
  }

  /** The end of `await()`: `t` holds the lock one hold higher and leaves
      the monitor. */
  function Resume(c: Condition, t: ThreadId): (r: Condition)
    requires CanResume(c, t)
    ensures SyncLock.IsHeldBy(r.lock, t) && r.lock.lockCount == c.lock.lockCount + 1
    ensures r.waiters == c.waiters && r.woken == c.woken && MonitorFree(r)
  {
    c.(lock := SyncLock.Acquire(c.lock, t), relocking := None)
  }

  /** `signal()` by `t`, once the monitor is free: without the lock it
      throws; otherwise it dequeues the head waiter, if there is one, which
      may then leave `wait()`. */
  function Signal(c: Condition, t: ThreadId): (r: Step<Condition>)
    requires MonitorFree(c)
    ensures r.outcome.Threw? <==> !SyncLock.IsHeldBy(c.lock, t)
    ensures r.outcome.Threw? ==> r.outcome.error == IllegalMonitorStateException
    ensures r.state.lock == c.lock && MonitorFree(r.state)
    ensures r.outcome.Done? && c.waiters != [] ==>
      [c.waiters[0]] + r.state.waiters == c.waiters && r.state.woken == c.woken + {c.waiters[0]}
    ensures r.state != c <==> r.outcome.Done? && c.waiters != []
  {
    if !SyncLock.IsHeldBy(c.lock, t) then Step(c, Threw(IllegalMonitorStateException))
    else if c.waiters == [] then Step(c, Done)
    else Step(c.(waiters := c.waiters[1..], woken := c.woken + {c.waiters[0]}), Done)
  }

  /** The threads of a queue, as a set. */
  function Members(ts: seq<ThreadId>): (r: set<ThreadId>)
    ensures forall t :: t in r <==> t in ts
    decreases |ts|
  {
    if ts == [] then {} else Members(ts[..|ts| - 1]) + {ts[|ts| - 1]}
  }

  /** `signalAll()` by `t`, once the monitor is free: without the lock it
      throws; otherwise the queue is emptied and every waiter may leave
      `wait()`. */
  function SignalAll(c: Condition, t: ThreadId): (r: Step<Condition>)
    requires MonitorFree(c)
    ensures r.outcome.Threw? <==> !SyncLock.IsHeldBy(c.lock, t)
    ensures r.outcome.Threw? ==> r.outcome.error == IllegalMonitorStateException && r.state == c
    ensures r.outcome.Done? ==> r.state == c.(waiters := [], woken := c.woken + Members(c.waiters))
  {
    if !SyncLock.IsHeldBy(c.lock, t) then Step(c, Threw(IllegalMonitorStateException))
    else Step(c.(waiters := [], woken := c.woken + Members(c.waiters)), Done)
  }

  /** Every step keeps `Valid`; `Await` is called by a running thread,
      which is not already inside `await`. */
  lemma ValidPreserved(c: Condition, t: ThreadId, s: ThreadId)
    requires Valid(c)
    ensures !InAwait(c, t) && (!SyncLock.IsHeldBy(c.lock, t) || MonitorFree(c)) ==> Valid(Await(c, t).state)
    ensures MonitorFree(c) ==> Valid(Signal(c, s).state) && Valid(SignalAll(c, s).state)
    ensures CanReenter(c, t) ==> Valid(Reenter(c, t))
    ensures CanResume(c, t) ==> Valid(Resume(c, t))
  {
  }

  /** `signal` wakes exactly the longest waiter: with a valid queue the old
      head may leave `wait()` and every other waiter is still queued. */
  lemma SignalWakesHead(c: Condition, t: ThreadId)
    requires Valid(c) && MonitorFree(c) && SyncLock.IsHeldBy(c.lock, t) && c.waiters != []
    ensures var r := Signal(c, t).state;
      && c.waiters[0] !in r.waiters && CanReenter(r, c.waiters[0])
      && forall i :: 1 <= i < |c.waiters| ==> c.waiters[i] in r.waiters && !CanReenter(r, c.waiters[i])
  {
    var r := Signal(c, t).state;
    assert r.waiters == c.waiters[1..];
    forall i | 1 <= i < |c.waiters|
      ensures c.waiters[i] in r.waiters && !CanReenter(r, c.waiters[i])
    {
      assert r.waiters[i - 1] == c.waiters[i];
    }
  }

  /** A full wait cycle: a thread holding the lock once that awaits is
      queued and frees the lock; another thread takes the lock and calls
      `signalAll`, which dequeues the waiter; the waiter takes the monitor
      back but cannot resume until the signaller unlocks; then it resumes
      holding the lock as before. */
  lemma AwaitSignalAllResume(c: Condition, t: ThreadId, signaller: ThreadId)
    requires SyncLock.Valid(c.lock) && SyncLock.IsHeldBy(c.lock, t) && c.lock.lockCount == 1
    requires MonitorFree(c) && !InAwait(c, t) && t != signaller
    ensures var a := Await(c, t).state;
      var b := a.(lock := SyncLock.Acquire(a.lock, signaller));
      var d := SignalAll(b, signaller).state;
      var w := Reenter(d, t);
      var e := w.(lock := SyncLock.Unlock(w.lock, signaller).state);
      && a.lock == SyncLock.Unlocked && !CanReenter(a, t) && !CanResume(a, t)
      && SignalAll(b, signaller).outcome.Done? && CanReenter(d, t)
      && !CanResume(w, t) && CanResume(e, t) && Resume(e, t).lock == c.lock
  {
  }

  /** The deadlock the re-lock under the monitor allows, as in two
      producers calling `lock(); …; signal(); unlock()` against one
      consumer. The consumer `p` waits; `a` signals it and unlocks; `p`
      takes the monitor back; `b` wins the free lock. Now `p` cannot get
      the lock and `b` cannot enter the monitor for its `signal`. */
  lemma BargingDeadlock(p: ThreadId, a: ThreadId, b: ThreadId)
    requires p != a && p != b && a != b
    ensures var c0 := New(SyncLock.Acquire(SyncLock.Unlocked, p));
      var c1 := Await(c0, p).state;
      var c2 := c1.(lock := SyncLock.Acquire(c1.lock, a));
      var c3 := Signal(c2, a).state;
      var c4 := c3.(lock := SyncLock.Unlock(c3.lock, a).state);
      var c5 := Reenter(c4, p);
      var c6 := c5.(lock := SyncLock.Acquire(c5.lock, b));
      && Signal(c2, a).outcome.Done?
      && SyncLock.IsHeldBy(c6.lock, b) && c6.relocking == Some(p)
      && !CanResume(c6, p) && !MonitorFree(c6)
  {
  }
}
