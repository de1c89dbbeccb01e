/** `sync.MyLock`: a reentrant lock kept as a `locked` flag, an owner thread
    and a hold count. Blocking in `lock` is modelled as enabledness:
    `Acquire` may only be taken when `CanLock` holds. */
module SyncLock {
  import opened Common

  datatype Lock = Lock(locked: bool, owner: Option<ThreadId>, lockCount: int)

  /** A new lock: unlocked, no owner, count 0. */
  const Unlocked: Lock := Lock(false, None, 0)

  /** The invariant every reachable lock keeps:
      locked <==> owner != null <==> count > 0. */
  predicate Valid(l: Lock) {
    && l.lockCount >= 0
    && (l.locked <==> l.owner.Some?)
    && (l.owner.Some? <==> l.lockCount > 0)
  }

  /** `lock()` leaves its wait loop: the lock is free or already the
      caller's. */
  predicate CanLock(l: Lock, t: ThreadId) {
    !l.locked || l.owner == Some(t)
  }

  /** `isLocked()` */
  predicate IsLocked(l: Lock) {
    l.locked
  }

  /** `isHeldByCurrentThread()` called by `t`. */
  predicate IsHeldBy(l: Lock, t: ThreadId) {
    l.owner == Some(t)
  }

  /** `lock()` by `t`, once it is no longer blocked. */
  function Acquire(l: Lock, t: ThreadId): (r: Lock)
    requires CanLock(l, t)
    ensures IsLocked(r) && IsHeldBy(r, t)
    ensures r.lockCount == l.lockCount + 1
    ensures Valid(l) ==> Valid(r)
  {
    Lock(true, Some(t), l.lockCount + 1)
  }

  /** `unlock()` by `t`: a thread that does not own the lock gets
      `IllegalMonitorStateException` and the lock is untouched; the owner
      gives up one hold, and the last hold frees the lock. */
  function Unlock(l: Lock, t: ThreadId): (r: Step<Lock>)
    ensures r.outcome.Threw? <==> !IsHeldBy(l, t)
    ensures r.outcome.Threw? ==> r.outcome.error == IllegalMonitorStateException && r.state == l
    ensures r.outcome.Done? ==> r.state.lockCount == l.lockCount - 1
    ensures r.outcome.Done? && r.state.lockCount == 0 ==> !IsLocked(r.state) && r.state.owner == None
    ensures r.outcome.Done? && r.state.lockCount != 0 ==> r.state.locked == l.locked && IsHeldBy(r.state, t)
    ensures Valid(l) ==> Valid(r.state)
  {
    if l.owner != Some(t) then Step(l, Threw(IllegalMonitorStateException))
    else if l.lockCount - 1 == 0 then Step(Lock(false, None, 0), Done)
    else Step(l.(lockCount := l.lockCount - 1), Done)
  }

  /** `n` nested `lock()` calls by `t`. */
  function AcquireTimes(l: Lock, t: ThreadId, n: nat): Lock
    requires CanLock(l, t)
  {
    if n == 0 then l else Acquire(AcquireTimes(l, t, n - 1), t)
  }

  /** `n` `unlock()` calls by `t`, stopping at the first that throws. */
  function UnlockTimes(l: Lock, t: ThreadId, n: nat): Step<Lock> {
    if n == 0 then Step(l, Done)
    else
      var s := UnlockTimes(l, t, n - 1);
      if s.outcome.Threw? then s else Unlock(s.state, t)
  }

  lemma {:induction false} AcquireTimesHeld(l: Lock, t: ThreadId, n: nat)
    requires Valid(l) && CanLock(l, t)
    ensures Valid(AcquireTimes(l, t, n))
    ensures AcquireTimes(l, t, n).lockCount == l.lockCount + n
    ensures n > 0 ==> IsHeldBy(AcquireTimes(l, t, n), t)
    ensures n == 0 ==> AcquireTimes(l, t, n) == l
  {
    if n > 0 {
      AcquireTimesHeld(l, t, n - 1);
    }
  }

  lemma {:induction false} UnlockTimesCount(l: Lock, t: ThreadId, n: nat)
    requires Valid(l) && IsHeldBy(l, t) && n < l.lockCount
    ensures UnlockTimes(l, t, n) == Step(l.(lockCount := l.lockCount - n), Done)
  {
    if n > 0 {
      UnlockTimesCount(l, t, n - 1);
    }
  }

  /** Reentrancy: after `n` nested locks of a free lock by one thread,
      fewer than `n` unlocks leave it held by that thread and exactly `n`
      unlocks free it again. */
  lemma NestedLocksNeedAsManyUnlocks(t: ThreadId, n: nat, k: nat)
    requires 0 < n && k <= n
    ensures var s := UnlockTimes(AcquireTimes(Unlocked, t, n), t, k);
      && s.outcome.Done?
      && (k < n ==> IsLocked(s.state) && IsHeldBy(s.state, t) && s.state.lockCount == n - k)
      && (k == n ==> s.state == Unlocked)
  {
    var held := AcquireTimes(Unlocked, t, n);
    AcquireTimesHeld(Unlocked, t, n);
    if k < n {
      UnlockTimesCount(held, t, k);
    } else {
      UnlockTimesCount(held, t, n - 1);
    }
  }
}
