/** `concurrency.MyCountDownLatch`: a gate without a floor. Any initial
    count is accepted and every `countDown` subtracts one, so the count can
    go negative; waiters are released once it is at most zero. The timed
    `await` is a loop over an oracle of guard checks. */
module ConcurrencyLatch {
  import opened Common

  datatype Latch = Latch(count: int)

  /** The constructor keeps whatever count it is given. */
  function New(count: int): (r: Latch)
    ensures r.count == count
  {
    Latch(count)
  }

  /** `countDown()` */
  function CountDown(l: Latch): (r: Latch)
    ensures r.count == l.count - 1
  {
    Latch(l.count - 1)
  }

  /** `k` calls of `countDown()`. */
  function CountDownTimes(l: Latch, k: nat): Latch {
    if k == 0 then l else CountDown(CountDownTimes(l, k - 1))
  }

  /** After `k` count-downs the count is exactly `count - k`, below zero if
      `k` exceeds it. */
  lemma {:induction false} CountDownTimesNoFloor(l: Latch, k: nat)
    ensures CountDownTimes(l, k).count == l.count - k
  {
    if k > 0 {
      CountDownTimesNoFloor(l, k - 1);
    }
  }

  /** `await()` returns: the count is at most zero. */
  predicate CanAwait(l: Latch) {
    l.count <= 0
  }

  /** One evaluation of the loop guard of `await(timeoutSeconds)`: the
      count, and the clock read for `elapsed`. */
  datatype Check = Check(count: int, now: int)

  /** The outcome over a finite oracle: the boolean returned at guard
      check `at`, or still waiting when the oracle runs out. */
  datatype TimedAwait = Returned(completed: bool, at: nat) | StillWaiting

  /** The timeout in milliseconds. */
  function TimeoutMillis(timeoutSeconds: int): int {
    timeoutSeconds * 1000
  }

  /** Check `k` keeps the loop going: count positive and the timeout not
      yet elapsed since `start`. */
  predicate KeepsWaiting(checks: seq<Check>, k: nat, timeoutSeconds: int, start: int)
    requires k < |checks|
  {
    checks[k].count > 0 && checks[k].now - start < TimeoutMillis(timeoutSeconds)
  }

  /** `await(timeoutSeconds)` on `l`, entered at clock `start`: it returns
      true at the first check whose count is at most zero, and false at the
      first check with a positive count once `timeoutSeconds * 1000` ms
      have elapsed. The first check reads `l` on entry; the later ones read
      whatever other threads' `countDown` calls have left. */
  method AwaitTimed(l: Latch, timeoutSeconds: int, start: int, checks: seq<Check>) returns (r: TimedAwait)
    requires |checks| > 0 && checks[0].count == l.count
    ensures r.Returned? ==> r.at < |checks|
    ensures r.Returned? ==> (r.completed <==> checks[r.at].count <= 0)
    ensures r.Returned? && !r.completed ==> checks[r.at].now - start >= TimeoutMillis(timeoutSeconds)
    ensures r.Returned? ==> forall k :: 0 <= k < r.at ==> KeepsWaiting(checks, k, timeoutSeconds, start)
    ensures r.StillWaiting? ==> forall k :: 0 <= k < |checks| ==> KeepsWaiting(checks, k, timeoutSeconds, start)
    ensures CanAwait(l) ==> r == Returned(true, 0)
    ensures !CanAwait(l) && timeoutSeconds <= 0 && checks[0].now >= start ==> r == Returned(false, 0)
  {
    var timeoutMs := timeoutSeconds * 1000;
    var k := 0;
    while k < |checks| && checks[k].count > 0
      invariant 0 <= k <= |checks|
      invariant forall j :: 0 <= j < k ==> KeepsWaiting(checks, j, timeoutSeconds, start)
      invariant k > 0 ==> checks[0].count > 0 && checks[0].now - start < timeoutMs
    {
      var elapsed := checks[k].now - start;
      if elapsed >= timeoutMs {
        return Returned(false, k);
      }
      k := k + 1;
    }
    if k == |checks| {
      return StillWaiting;
    }
    return Returned(true, k);
  }
}
