/** `network.SearchResultsCollector`: the result list of one search, seeded
    with the local results, plus the gate the searching thread waits on.
    The collector's field is the JDK count-down latch, whose `countDown`
    stops at zero; that is the semantics of `SyncLatch`. */
module SearchCollector {
  import opened Common
  import opened Protocol
  import SyncLatch

  datatype Collector = Collector(latch: SyncLatch.Latch, results: seq<FileSearchResult>)

  /** The constructor copies the local results. */
  function New(latch: SyncLatch.Latch, initialResults: seq<FileSearchResult>): (c: Collector)
    ensures c.results == initialResults && c.latch == latch
  {
    Collector(latch, initialResults)
  }

  /** `addResults(list)`: the list is appended in order, and the gate is
      counted down once, also for an empty list. */
  function AddResults(c: Collector, newResults: seq<FileSearchResult>): (r: Collector)
    ensures r.results == c.results + newResults
    ensures r.latch == SyncLatch.CountDown(c.latch)
  {
    Collector(SyncLatch.CountDown(c.latch), c.results + newResults)
  }

  /** `getAllResults()`: a copy of the current list; the collector is a
      value and so is not changed by reading it. */
  function GetAllResults(c: Collector): (r: seq<FileSearchResult>)
    ensures |r| == |c.results| && forall i :: 0 <= i < |r| ==> r[i] == c.results[i]
  {
    c.results
  }

  /** The batches concatenated in order. */
  function Flatten(batches: seq<seq<FileSearchResult>>): seq<FileSearchResult>
    decreases |batches|
  {
    if batches == [] then [] else Flatten(batches[..|batches| - 1]) + batches[|batches| - 1]
  }

  /** One `addResults` per batch, in order. */
  function AddAll(c: Collector, batches: seq<seq<FileSearchResult>>): Collector
    decreases |batches|
  {
    if batches == [] then c else AddResults(AddAll(c, batches[..|batches| - 1]), batches[|batches| - 1])
  }

  /** After `addResults(L1) … addResults(Lk)` the list is the seed followed
      by `L1 ++ … ++ Lk`, and the gate has been counted down `k` times. */
  lemma {:induction false} AddAllAccumulates(c: Collector, batches: seq<seq<FileSearchResult>>)
    ensures AddAll(c, batches).results == c.results + Flatten(batches)
    ensures AddAll(c, batches).latch == SyncLatch.CountDownTimes(c.latch, |batches|)
    decreases |batches|
  {
    if batches != [] {
      AddAllAccumulates(c, batches[..|batches| - 1]);
    }
  }

  /** The gate opens after one call per expected peer, whatever the
      batches hold (empty ones included): a collector built for `n` peers
      that received `n` batches releases its waiter, and holds the local
      results followed by every batch. */
  lemma GateOpensAfterEveryPeer(initial: seq<FileSearchResult>, batches: seq<seq<FileSearchResult>>)
    ensures var c := AddAll(New(SyncLatch.Latch(|batches|), initial), batches);
      SyncLatch.CanAwait(c.latch) && c.results == initial + Flatten(batches)
  {
    AddAllAccumulates(New(SyncLatch.Latch(|batches|), initial), batches);
    SyncLatch.CountDownTimesFloor(SyncLatch.Latch(|batches|), |batches|);
  }

  /** `k` empty result lists, as credited for `k` failed sends. */
  function Empties(k: nat): (r: seq<seq<FileSearchResult>>)
    ensures |r| == k && forall i :: 0 <= i < k ==> r[i] == []
  {
    seq(k, _ => [])
  }

  lemma {:induction false} FlattenEmpties(k: nat)
    ensures Flatten(Empties(k)) == []
  {
    if k > 0 {
      assert Empties(k)[..k - 1] == Empties(k - 1);
      FlattenEmpties(k - 1);
    }
  }

  /** Flattening distributes over concatenation of batch lists. */
  lemma {:induction false} FlattenAppend(a: seq<seq<FileSearchResult>>, b: seq<seq<FileSearchResult>>)
    ensures Flatten(a + b) == Flatten(a) + Flatten(b)
    decreases |b|
  {
    if b != [] {
      assert (a + b)[..|a + b| - 1] == a + b[..|b| - 1];
      FlattenAppend(a, b[..|b| - 1]);
    } else {
      assert a + b == a;
    }
  }
}
