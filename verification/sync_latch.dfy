/** `sync.MyCountDownLatch`: a gate whose count starts non-negative and is
    counted down to a floor of zero. `await()` blocks until the count is
    zero (enabledness); `await(timeout)` is a loop over an oracle of
    wake-ups, each reporting the count and the clock when `wait` returned. */
module SyncLatch {
  import opened Common

  /** The count is a `nat`: the constructor and `countDown` keep it
      non-negative. */
  datatype Latch = Latch(count: nat)

  /** The constructor: a negative count throws `IllegalArgumentException`. */
  function New(count: int): (r: Result<Latch>)
    ensures r.Err? <==> count < 0
    ensures r.Err? ==> r.error == IllegalArgumentException
    ensures r.Ok? ==> r.value.count == count
  {
    if count < 0 then Err(IllegalArgumentException) else Ok(Latch(count))
  }

  /** `countDown()`: one less while positive, nothing at zero. */
  function CountDown(l: Latch): (r: Latch)
    ensures l.count > 0 ==> r.count == l.count - 1
    ensures l.count == 0 ==> r == l
  {
    if l.count > 0 then Latch(l.count - 1) else l
  }

  /** `k` calls of `countDown()`. */
  function CountDownTimes(l: Latch, k: nat): Latch {
    if k == 0 then l else CountDown(CountDownTimes(l, k - 1))
  }

  /** After `k` count-downs the count is `count - k`, floored at zero. */
  lemma {:induction false} CountDownTimesFloor(l: Latch, k: nat)
    ensures CountDownTimes(l, k).count == if k <= l.count then l.count - k else 0
  {
    if k > 0 {
      CountDownTimesFloor(l, k - 1);
    }
  }

  /** `await()` returns: the count is zero. */
  predicate CanAwait(l: Latch) {
    l.count == 0
  }

  /** `await()` once enabled returns without touching the gate. */
  function Await(l: Latch): (r: Latch)
    requires CanAwait(l)
    ensures r.count == 0 && r == l
  {
    l
  }

  /** What one `wait(remaining)` returned to: the count and the clock. */
  datatype Wake = Wake(count: nat, now: int)

  /** The outcome of `await(timeout)` over a finite oracle: it returned its
      boolean after `waits` wake-ups with `finalCount` on the gate, or it is
      still waiting when the oracle runs out. */
  datatype TimedAwait = Returned(reachedZero: bool, finalCount: nat, waits: nat) | StillWaiting

  /** The count seen by the loop guard after `i` wake-ups. */
  function CountAfter(l: Latch, wakes: seq<Wake>, i: nat): nat
    requires i <= |wakes|
  {
    if i == 0 then l.count else wakes[i - 1].count
  }

  /** `remaining` after `i` wake-ups: the timeout, then deadline minus the
      clock. */
  function RemainingAfter(timeout: int, start: int, wakes: seq<Wake>, i: nat): int
    requires i <= |wakes|
  {
    if i == 0 then timeout else start + timeout - wakes[i - 1].now
  }

  /** The loop guard `count > 0 && remaining > 0` after `i` wake-ups. */
  predicate KeepsWaiting(l: Latch, timeout: int, start: int, wakes: seq<Wake>, i: nat)
    requires i <= |wakes|
  {
    CountAfter(l, wakes, i) > 0 && RemainingAfter(timeout, start, wakes, i) > 0
  }

  /** `await(timeout)` entered at clock `start`: true at once on a zero
      count; otherwise it waits while the count is positive and time
      remains, and returns whether the count is zero when it stops. */
  method AwaitTimed(l: Latch, timeout: int, start: int, wakes: seq<Wake>) returns (r: TimedAwait)
    ensures l.count == 0 ==> r == Returned(true, 0, 0)
    ensures l.count > 0 && timeout <= 0 ==> r == Returned(false, l.count, 0)
    ensures r.Returned? ==> r.waits <= |wakes| && r.finalCount == CountAfter(l, wakes, r.waits)
    ensures r.Returned? ==> (r.reachedZero <==> r.finalCount == 0)
    ensures r.Returned? && l.count > 0 ==>
      && !KeepsWaiting(l, timeout, start, wakes, r.waits)
      && forall j :: 0 <= j < r.waits ==> KeepsWaiting(l, timeout, start, wakes, j)
    ensures r.StillWaiting? ==> forall j :: 0 <= j <= |wakes| ==> KeepsWaiting(l, timeout, start, wakes, j)
  {
    if l.count == 0 {
      return Returned(true, 0, 0);
    }
    var deadline := start + timeout;
    var remaining := timeout;
    var count := l.count;
    var i := 0;
    while count > 0 && remaining > 0
      invariant 0 <= i <= |wakes|
      invariant count == CountAfter(l, wakes, i)
      invariant remaining == RemainingAfter(timeout, start, wakes, i)
      invariant forall j :: 0 <= j < i ==> KeepsWaiting(l, timeout, start, wakes, j)
      invariant i > 0 ==> timeout > 0
      decreases |wakes| - i
    {
      if i == |wakes| {
        return StillWaiting;
      }
      count := wakes[i].count;
      remaining := deadline - wakes[i].now;
      i := i + 1;
    }
    return Returned(count == 0, count, i);
  }
}
