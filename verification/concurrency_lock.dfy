/** `concurrency.MyLock`: a reentrant lock kept as an atomic owner reference
    and a hold count, without a separate `locked` flag. The spinning
    `compareAndSet` loop is modelled as enabledness: `Acquire` may only be
    taken when `CanLock` holds. */
module ConcurrencyLock {
  import opened Common

  datatype Lock = Lock(owner: Option<ThreadId>, holdCount: int)

  /** A new lock: no owner, hold count 0. */
  const Free: Lock := Lock(None, 0)

  /** The invariant every reachable lock keeps: owned <==> holdCount > 0. */
  predicate Valid(l: Lock) {
    l.holdCount >= 0 && (l.owner.Some? <==> l.holdCount > 0)
  }

  /** `lock()` by `t` stops spinning: the owner is unset or is `t`. */
  predicate CanLock(l: Lock, t: ThreadId) {
    l.owner == None || l.owner == Some(t)
  }

  /** `isHeldByCurrentThread()` called by `t`. */
  predicate IsHeldBy(l: Lock, t: ThreadId) {
    l.owner == Some(t)
  }

  /** `lock()` by `t`: the successful `compareAndSet` on a free lock sets
      the count to 1 whatever it was; the owner re-entering bumps it. */
  function Acquire(l: Lock, t: ThreadId): (r: Lock)
    requires CanLock(l, t)
    ensures IsHeldBy(r, t)
    ensures l.owner == None ==> r.holdCount == 1
    ensures l.owner == Some(t) ==> r.holdCount == l.holdCount + 1
    ensures Valid(l) ==> Valid(r)
  {
    if l.owner == None then Lock(Some(t), 1) else l.(holdCount := l.holdCount + 1)
  }

  /** `unlock()` by `t`: a non-owner gets `IllegalMonitorStateException`
      and the lock is untouched; otherwise one hold is released and the
      owner is cleared when none remain. */
  function Unlock(l: Lock, t: ThreadId): (r: Step<Lock>)
    ensures r.outcome.Threw? <==> !IsHeldBy(l, t)
    ensures r.outcome.Threw? ==> r.outcome.error == IllegalMonitorStateException && r.state == l
    ensures r.outcome.Done? ==> r.state.holdCount == l.holdCount - 1
    ensures r.outcome.Done? ==> (r.state.owner == None <==> r.state.holdCount == 0)
    ensures r.outcome.Done? && r.state.holdCount != 0 ==> IsHeldBy(r.state, t)
    ensures Valid(l) ==> Valid(r.state)
  {
    if l.owner != Some(t) then Step(l, Threw(IllegalMonitorStateException))
    else if l.holdCount - 1 == 0 then Step(Lock(None, 0), Done)
    else Step(l.(holdCount := l.holdCount - 1), Done)
  }

  /** `n` nested `lock()` calls by `t`. */
  function AcquireTimes(l: Lock, t: ThreadId, n: nat): Lock
    requires CanLock(l, t)
  {
    if n == 0 then l else Acquire(AcquireTimes(l, t, n - 1), t)
  }

  /** `n` `unlock()` calls by `t`, stopping at the first that throws. */
  function UnlockTimes(l: Lock, t: ThreadId, n: nat): Step<Lock> {
    if n == 0 then Step(l, Done)
    else
      var s := UnlockTimes(l, t, n - 1);
      if s.outcome.Threw? then s else Unlock(s.state, t)
  }

  /** On a free lock, `n > 0` nested acquisitions leave a hold count of
      exactly `n`, even if a stale count was left behind. */
  lemma {:induction false} AcquireTimesFromFree(l: Lock, t: ThreadId, n: nat)
    requires l.owner == None && n > 0
    ensures AcquireTimes(l, t, n) == Lock(Some(t), n)
  {
    if n > 1 {
      AcquireTimesFromFree(l, t, n - 1);
    }
  }

  lemma {:induction false} UnlockTimesCount(l: Lock, t: ThreadId, n: nat)
    requires IsHeldBy(l, t) && n < l.holdCount
    ensures UnlockTimes(l, t, n) == Step(l.(holdCount := l.holdCount - n), Done)
  {
    if n > 0 {
      UnlockTimesCount(l, t, n - 1);
    }
  }

  /** Reentrancy: `n` nested locks of a free lock need exactly `n` unlocks
      to free it; after fewer it is still held by the same thread. */
  lemma NestedLocksNeedAsManyUnlocks(t: ThreadId, n: nat, k: nat)
    requires 0 < n && k <= n
    ensures var s := UnlockTimes(AcquireTimes(Free, t, n), t, k);
      && s.outcome.Done?
      && (k < n ==> IsHeldBy(s.state, t) && s.state.holdCount == n - k)
      && (k == n ==> s.state == Free)
  {
    var held := AcquireTimes(Free, t, n);
    AcquireTimesFromFree(Free, t, n);
    if k < n {
      UnlockTimesCount(held, t, k);
    } else {
      UnlockTimesCount(held, t, n - 1);
    }
  }

  /** A thread that does not hold the lock cannot release it, whoever
      holds it. */
  lemma ForeignUnlockThrows(l: Lock, owner: ThreadId, t: ThreadId)
    requires IsHeldBy(l, owner) && t != owner
    ensures Unlock(l, t) == Step(l, Threw(IllegalMonitorStateException))
  {
  }
}
