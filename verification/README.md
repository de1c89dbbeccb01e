# IscTorrent core, modelled in Dafny

IscTorrent is a peer-to-peer file sharer. Nodes hold TCP links to each
other and exchange serialised messages over them:

- keyword searches (`WordSearchMessage`) and their answers, which are lists
  of `FileSearchResult`;
- connection handshakes (`NewConnectionRequest`);
- block requests and block answers (`FileBlockRequestMessage` and
  `FileBlockAnswerMessage`).

A download cuts a file into 10240-byte blocks. One `DownloadTask` runs per
source peer. Each task claims blocks from the file's queue in the
`DownloadTasksManager`, asks its peer for them and saves each answer into
the file's buffer. Once the last block is in, the manager notifies the
file's writer. On the serving side, block requests wait in a
single-consumer queue. Search answers are gathered by a
`SearchResultsCollector` gated on a count-down latch. The synchronisation
is home-grown: two reentrant locks, a condition variable, two count-down
latches and a thread pool.

The model is written in Dafny with immutable datatypes and pure functions.
Each Java method that runs under a lock is one step from state to state. A
call that may throw returns a `Step` or `Result` carrying the Java exception.
Blocking becomes a precondition saying when the call can return:
`CanLock`, `CanReenter`, `CanResume`, `CanAwait`, `CanTake`, `CanReceive`,
`CanGetNextBlock`, `CanRequest`. The outside world enters as parameters:

- whether a socket write fails;
- the clock;
- what the local file search or a file read returns;
- which response a peer sends.

The timed latch waits are loops over a finite sequence of wake-ups.

Modules:

- `Common`: `null` as `Option`, Java exceptions, `byte`, thread identities and the `(int)` cast.
- `JavaText`: `String.trim`/`isEmpty`, `String.hashCode`, and the decimal form of an `int`.
- `Protocol`: the messages, plus `NewConnectionRequest` and `FileSearchResult` with their validation, `equals` and `hashCode`.
- `SyncLock`, `ConcurrencyLock`: `sync.MyLock` and `concurrency.MyLock`.
- `SyncCondition`: `sync.MyCondition`.
- `SyncLatch`, `ConcurrencyLatch`: the two `MyCountDownLatch` classes.
- `ThreadPool`: `sync.MyThreadPool`.
- `BlockRequests`: `core.BlockRequestQueue` and `network.BlockRequestHandler`. Their queues behave the same; they differ in which read failures end the processor thread.
- `SearchCollector`: `network.SearchResultsCollector`.
- `NodeConnection`: message dispatch on one link, its one-slot response mailbox, and sending.
- `ConnectionManager`: the node's list of links.
- `BlockPlan`: how `startDownload` cuts a file into blocks.
- `DownloadTasksManager`: the per-file download bookkeeping.
- `DownloadTask`: the per-peer download worker.

The central results are these:

- The block plan tiles the file exactly: contiguous, no gaps, no overlap, ending at the file size.
- After `startDownload`, saving honest answers to distinct planned blocks, in any order, gives a download that is complete exactly when every block has been saved. Its buffer is then the original file, byte for byte.
- Only the last save completes the download.
- A lone task over an open link, talking to an honest peer, fetches the plan block by block, finishes, and leaves the original file in the buffer.

## Model

| member | source | states |
|---|---|---|
| Common.ToInt32 | src/pt/iscte/pcd/isctorrent/download/DownloadTasksManager.java:133 | the `(int)` narrowing of a `long`: a 32-bit value congruent to the input modulo 2^32, and the input itself when it already fits |
| Common.GetOrDefault | src/pt/iscte/pcd/isctorrent/download/DownloadTasksManager.java:188 | `getOrDefault`: the mapped value when the key is present, the default otherwise |
| JavaText.TrimEmptyIffBlank | src/pt/iscte/pcd/isctorrent/protocol/NewConnectionRequest.java:24 | `address.trim().isEmpty()` holds exactly when every character is at most U+0020 |
| JavaText.HashBitsClosedForm | src/pt/iscte/pcd/isctorrent/protocol/NewConnectionRequest.java:84 | the hash computed character by character in 32-bit arithmetic equals Java's documented closed form s[0]·31^(n-1) + … + s[n-1], reduced modulo 2^32 |
| JavaText.ParseNatToString | src/pt/iscte/pcd/isctorrent/download/DownloadTasksManager.java:56 | the decimal digits of a port read back as the same number |
| JavaText.IntToString | src/pt/iscte/pcd/isctorrent/download/DownloadTasksManager.java:56 | the decimal form of an `int` is non-empty, has no colon, and starts with `-` exactly for negatives |
| JavaText.IntToStringInjective | src/pt/iscte/pcd/isctorrent/download/DownloadTasksManager.java:56 | distinct ports print differently |
| JavaText.ColonJoinInjective | src/pt/iscte/pcd/isctorrent/download/DownloadTasksManager.java:56 | `address + ":" + digits` determines both parts when the digits hold no colon, even if the address does |
| Protocol.NewConnectionRequestOf | src/pt/iscte/pcd/isctorrent/protocol/NewConnectionRequest.java:23-34 | the constructor succeeds exactly for a non-null, non-blank address and a port in 1..65535; otherwise `IllegalArgumentException`; on success the fields are the arguments and the timestamp is the clock |
| Protocol.IsValid | src/pt/iscte/pcd/isctorrent/protocol/NewConnectionRequest.java:65-67 | `isValid(timeout)` at clock time `now`: the request's age `now - timestamp` is below the timeout |
| Protocol.IsValidEarlier | src/pt/iscte/pcd/isctorrent/protocol/NewConnectionRequest.java:65-67 | a request that is valid now was valid at every earlier moment |
| Protocol.RequestEquals | src/pt/iscte/pcd/isctorrent/protocol/NewConnectionRequest.java:75-80 | `equals` between two requests: same port and equal address strings |
| Protocol.RequestHashCode | src/pt/iscte/pcd/isctorrent/protocol/NewConnectionRequest.java:82-85 | `hashCode`: the address's `String.hashCode` xor the port, as 32-bit patterns |
| Protocol.RequestEqualsIgnoresTimestamp | src/pt/iscte/pcd/isctorrent/protocol/NewConnectionRequest.java:76-80 | `equals` compares exactly the address and the port, never the timestamp |
| Protocol.RequestEqualsContract | src/pt/iscte/pcd/isctorrent/protocol/NewConnectionRequest.java:76-85 | `equals` is reflexive, symmetric and transitive, and equal requests have equal `hashCode` (`address.hashCode() ^ port`) |
| Protocol.ResultEquals | src/pt/iscte/pcd/isctorrent/protocol/FileSearchResult.java:53-60 | `equals` between two results: equal file names, equal node addresses and the same node port |
| Protocol.ResultHashCode | src/pt/iscte/pcd/isctorrent/protocol/FileSearchResult.java:62-65 | `hashCode`: the xor of the file name's and node address's `String.hashCode` and the node port |
| Protocol.ResultEqualsIgnoresSizeAndSearch | src/pt/iscte/pcd/isctorrent/protocol/FileSearchResult.java:54-60 | two results are equal exactly when they differ at most in size and originating search |
| Protocol.ResultEqualsContract | src/pt/iscte/pcd/isctorrent/protocol/FileSearchResult.java:54-65 | `equals` is an equivalence and agrees with `hashCode` (`fileName ^ nodeAddress ^ nodePort`) |
| SyncLock.IsLocked | src/pt/iscte/pcd/isctorrent/sync/MyLock.java:53-55 | `isLocked()` reads the `locked` flag |
| SyncLock.IsHeldBy | src/pt/iscte/pcd/isctorrent/sync/MyLock.java:61-63 | `isHeldByCurrentThread()` by `t`: `t` is the owner |
| SyncLock.Acquire | src/pt/iscte/pcd/isctorrent/sync/MyLock.java:16-27 | once no other thread holds the lock, `lock()` leaves it locked by the caller with the count one higher; the invariant (locked iff owned iff count > 0) is kept |
| SyncLock.Unlock | src/pt/iscte/pcd/isctorrent/sync/MyLock.java:33-47 | a non-owner gets `IllegalMonitorStateException` and nothing changes; the owner drops one hold; at zero the lock is free with no owner, otherwise still held by the caller |
| SyncLock.AcquireTimesHeld | src/pt/iscte/pcd/isctorrent/sync/MyLock.java:16-27 | n nested `lock()` calls raise the count by n and leave the caller the owner |
| SyncLock.UnlockTimesCount | src/pt/iscte/pcd/isctorrent/sync/MyLock.java:33-47 | fewer unlocks than holds all succeed and only lower the count |
| SyncLock.NestedLocksNeedAsManyUnlocks | src/pt/iscte/pcd/isctorrent/sync/MyLock.java:16-63 | reentrancy: after n locks, k < n unlocks leave it held by the same thread with count n - k, and n unlocks free it |
| ConcurrencyLock.IsHeldBy | src/pt/iscte/pcd/isctorrent/concurrency/MyLock.java:36-38 | `isHeldByCurrentThread()` by `t`: the atomic owner reference is `t` |
| ConcurrencyLock.Acquire | src/pt/iscte/pcd/isctorrent/concurrency/MyLock.java:10-20 | winning the free lock sets the hold count to 1 whatever was left; the owner re-entering adds one |
| ConcurrencyLock.Unlock | src/pt/iscte/pcd/isctorrent/concurrency/MyLock.java:22-30 | a non-owner gets `IllegalMonitorStateException` and nothing changes; the owner drops one hold and the owner is cleared exactly when none remain |
| ConcurrencyLock.AcquireTimesFromFree | src/pt/iscte/pcd/isctorrent/concurrency/MyLock.java:10-20 | n > 0 nested locks of a free lock give exactly n holds by the caller |
| ConcurrencyLock.UnlockTimesCount | src/pt/iscte/pcd/isctorrent/concurrency/MyLock.java:22-30 | fewer unlocks than holds all succeed and only lower the count |
| ConcurrencyLock.NestedLocksNeedAsManyUnlocks | src/pt/iscte/pcd/isctorrent/concurrency/MyLock.java:10-38 | n nested locks need exactly n unlocks to free the lock |
| ConcurrencyLock.ForeignUnlockThrows | src/pt/iscte/pcd/isctorrent/concurrency/MyLock.java:22-26 | a thread that does not hold the lock cannot release it, and the lock is untouched |
| SyncCondition.Await | src/pt/iscte/pcd/isctorrent/sync/MyCondition.java:26-37 | without the lock it throws `IllegalMonitorStateException`, even while the monitor is taken; otherwise, once the monitor is free, the caller joins the tail of the queue and the lock is released once, so a nested hold stays with it |
| SyncCondition.New | src/pt/iscte/pcd/isctorrent/sync/MyCondition.java:18-20 | a new condition has the given lock, an empty queue and a free monitor |
| SyncCondition.Reenter | src/pt/iscte/pcd/isctorrent/sync/MyCondition.java:41-46 | a dequeued waiter leaves `wait()` only when the monitor is free, and then holds the monitor while it re-locks |
| SyncCondition.Resume | src/pt/iscte/pcd/isctorrent/sync/MyCondition.java:41-48 | the re-locking waiter passes `lock.lock()` only when the lock is free or its own; it then holds the lock one hold higher and frees the monitor |
| SyncCondition.Signal | src/pt/iscte/pcd/isctorrent/sync/MyCondition.java:54-63 | runs only when the monitor is free; without the lock it throws; otherwise exactly the head waiter is dequeued and may leave `wait()`; the lock is never touched |
| SyncCondition.SignalAll | src/pt/iscte/pcd/isctorrent/sync/MyCondition.java:68-75 | runs only when the monitor is free; without the lock it throws; otherwise the queue is emptied, every waiter may leave `wait()`, and nothing else changes |
| SyncCondition.ValidPreserved | src/pt/iscte/pcd/isctorrent/sync/MyCondition.java:26-75 | every step keeps the invariant: no thread is queued twice, and each waiting thread is in exactly one phase of `await` |
| SyncCondition.SignalWakesHead | src/pt/iscte/pcd/isctorrent/sync/MyCondition.java:59-61 | `signal` lets exactly the longest waiter leave `wait()` and keeps every other waiter queued |
| SyncCondition.AwaitSignalAllResume | src/pt/iscte/pcd/isctorrent/sync/MyCondition.java:26-75 | a full cycle: await frees the lock; after `signalAll` the waiter takes the monitor back but cannot resume while the signaller holds the lock; after the signaller's unlock it resumes holding the lock as before |
| SyncCondition.BargingDeadlock | src/pt/iscte/pcd/isctorrent/sync/MyCondition.java:33-48 | a reachable deadlock: a woken waiter re-locking under the monitor, while a thread that took the free lock in between wants the monitor for `signal`; neither can proceed |
| SyncLatch.New | src/pt/iscte/pcd/isctorrent/sync/MyCountDownLatch.java:14-19 | a negative count throws `IllegalArgumentException`; otherwise the gate holds the count |
| SyncLatch.CountDown | src/pt/iscte/pcd/isctorrent/sync/MyCountDownLatch.java:25-32 | a positive count drops by one; zero stays zero |
| SyncLatch.CountDownTimesFloor | src/pt/iscte/pcd/isctorrent/sync/MyCountDownLatch.java:25-32 | k count-downs give max(count - k, 0) |
| SyncLatch.Await | src/pt/iscte/pcd/isctorrent/sync/MyCountDownLatch.java:38-42 | `await()` returns only at count zero and changes nothing |
| SyncLatch.AwaitTimed | src/pt/iscte/pcd/isctorrent/sync/MyCountDownLatch.java:49-63 | true at once on zero; false at once on a positive count with a timeout ≤ 0; otherwise it waits exactly while the count is positive and time remains, and returns whether the count is zero |
| ConcurrencyLatch.New | src/pt/iscte/pcd/isctorrent/concurrency/MyCountDownLatch.java:6-8 | any count is accepted, negative included |
| ConcurrencyLatch.CountDown | src/pt/iscte/pcd/isctorrent/concurrency/MyCountDownLatch.java:10-15 | the count drops by one with no floor |
| ConcurrencyLatch.CountDownTimesNoFloor | src/pt/iscte/pcd/isctorrent/concurrency/MyCountDownLatch.java:10-15 | k count-downs give count - k, below zero if need be |
| ConcurrencyLatch.AwaitTimed | src/pt/iscte/pcd/isctorrent/concurrency/MyCountDownLatch.java:17-31 | the first check reads the latch on entry: true at once if its count is already ≤ 0, false at once for a positive count with a timeout ≤ 0 (the clock not behind the start); otherwise true at the first check with count ≤ 0, false at the first positive check once timeout·1000 ms have elapsed; every earlier check kept waiting |
| ThreadPool.New | src/pt/iscte/pcd/isctorrent/sync/MyThreadPool.java:8-14 | a negative size throws `NegativeArraySizeException`; otherwise `size` workers, an empty queue, not shut down |
| ThreadPool.Submit | src/pt/iscte/pcd/isctorrent/sync/MyThreadPool.java:16-21 | after shutdown a task is dropped; before, it goes to the tail |
| ThreadPool.Take | src/pt/iscte/pcd/isctorrent/sync/MyThreadPool.java:26-37 | a woken worker takes nothing after shutdown, and otherwise the head task |
| ThreadPool.Shutdown | src/pt/iscte/pcd/isctorrent/sync/MyThreadPool.java:48-54 | the flag is set and the queued tasks stay queued, never to run |
| ThreadPool.WorkerRound | src/pt/iscte/pcd/isctorrent/sync/MyThreadPool.java:23-46 | a round entered while running takes the head task and goes round again |
| ThreadPool.RoundIgnoresRunOutcome | src/pt/iscte/pcd/isctorrent/sync/MyThreadPool.java:38-44 | a task that throws does not stop its worker: the round is the same whichever way the task ended |
| ThreadPool.NothingTakenAfterShutdown | src/pt/iscte/pcd/isctorrent/sync/MyThreadPool.java:17-35 | after shutdown, no sequence of submits and takes changes the pool or runs anything |
| ThreadPool.TakenInSubmissionOrder | src/pt/iscte/pcd/isctorrent/sync/MyThreadPool.java:16-37 | without shutdown, the tasks taken followed by those queued are the initial ones followed by those submitted: FIFO, none lost or duplicated |
| BlockRequests.AddRequest | src/pt/iscte/pcd/isctorrent/core/BlockRequestQueue.java:24-32 | the request, paired with its connection, goes to the tail, also after shutdown |
| BlockRequests.Take | src/pt/iscte/pcd/isctorrent/network/BlockRequestHandler.java:77-90 | a woken processor takes the head while running, and nothing after shutdown |
| BlockRequests.Shutdown | src/pt/iscte/pcd/isctorrent/core/BlockRequestQueue.java:62-70 | the processor is stopped and pending requests stay queued |
| BlockRequests.PendingCount | src/pt/iscte/pcd/isctorrent/network/BlockRequestHandler.java:164-170 | `getPendingCount()`: the number of queued requests |
| BlockRequests.PendingCountTracks | src/pt/iscte/pcd/isctorrent/network/BlockRequestHandler.java:164-176 | `getPendingCount` rises by one per request added and falls by one per request taken while running |
| BlockRequests.ProcessRequest | src/pt/iscte/pcd/isctorrent/network/BlockRequestHandler.java:110-141 | a failed read sends nothing; a successful one answers on the request's own connection with the bytes read, at the requested offset; the processor dies exactly when the read fails with an error its `catch` does not handle |
| BlockRequests.Serve | src/pt/iscte/pcd/isctorrent/network/BlockRequestHandler.java:72-101 | the processor loop serves requests from the head, so what is left queued is always a suffix of the queue |
| BlockRequests.HandlerStopsAtRuntimeError | src/pt/iscte/pcd/isctorrent/network/BlockRequestHandler.java:69-141 | in `BlockRequestHandler`, a read failing with anything but `IOException` ends the thread: every later request stays queued, never served |
| BlockRequests.QueueServesAll | src/pt/iscte/pcd/isctorrent/core/BlockRequestQueue.java:34-60 | in `BlockRequestQueue` no read failure stops the processor: given a read per request it serves the whole queue, and the answers sent are exactly those owed (`Answers`): one per successful read, with its bytes and the request's offset, on the request's own connection, in queue order |
| BlockRequests.NothingTakenAfterShutdown | src/pt/iscte/pcd/isctorrent/core/BlockRequestQueue.java:34-60 | after shutdown requests still queue up but none is processed |
| BlockRequests.TakenInArrivalOrder | src/pt/iscte/pcd/isctorrent/core/BlockRequestQueue.java:24-60 | while running, requests are processed in arrival order, none lost or duplicated |
| SearchCollector.New | src/pt/iscte/pcd/isctorrent/network/SearchResultsCollector.java:15-18 | the collector starts with a copy of the initial results and the given gate |
| SearchCollector.AddResults | src/pt/iscte/pcd/isctorrent/network/SearchResultsCollector.java:20-28 | a batch is appended and the gate counted down once |
| SearchCollector.GetAllResults | src/pt/iscte/pcd/isctorrent/network/SearchResultsCollector.java:30-37 | the copy holds the collected results in order |
| SearchCollector.AddAllAccumulates | src/pt/iscte/pcd/isctorrent/network/SearchResultsCollector.java:20-28 | k batches append their concatenation and count the gate down k times |
| SearchCollector.GateOpensAfterEveryPeer | src/pt/iscte/pcd/isctorrent/network/SearchResultsCollector.java:15-28 | a gate of n opens after n batches, holding the initial results then every batch |
| SearchCollector.FlattenEmpties | src/pt/iscte/pcd/isctorrent/network/ConnectionManager.java:106-108 | the empty lists credited for failed sends add no result |
| NodeConnection.Opened | src/pt/iscte/pcd/isctorrent/network/NodeConnection.java:20-38 | a fresh link has an unknown listening port (-1), an empty mailbox, no collector and nothing sent |
| NodeConnection.Send | src/pt/iscte/pcd/isctorrent/network/NodeConnection.java:149-160 | `sendMessage` throws `IOException` exactly on a closed socket or a failing write, writing nothing; otherwise the message is appended to the stream |
| NodeConnection.Close | src/pt/iscte/pcd/isctorrent/network/NodeConnection.java:178-190 | the socket is closed and nothing else changes |
| NodeConnection.SetSearchResultsCollector | src/pt/iscte/pcd/isctorrent/network/NodeConnection.java:204-206 | the collector is replaced and nothing else changes |
| NodeConnection.ReceiveResponse | src/pt/iscte/pcd/isctorrent/network/NodeConnection.java:162-176 | once an answer is present it is returned and the mailbox emptied |
| NodeConnection.HandleMessage | src/pt/iscte/pcd/isctorrent/network/NodeConnection.java:69-119 | per message kind: a handshake records the listening port and asks for a return connection; a search is answered on this link; a block request is queued with this connection; a block answer overwrites the mailbox; a result list goes to the collector, which is then cleared, or to the GUI |
| NodeConnection.AnswerThenReceive | src/pt/iscte/pcd/isctorrent/network/NodeConnection.java:88-97 | a delivered block answer is exactly what the next `receiveResponse` returns |
| NodeConnection.UndrainedAnswerIsOverwritten | src/pt/iscte/pcd/isctorrent/network/NodeConnection.java:90-96 | of two answers arriving before a receive, only the second is seen, and neither arrival fails |
| NodeConnection.CollectorIsOneShot | src/pt/iscte/pcd/isctorrent/network/NodeConnection.java:104-109 | a registered collector gets the first result list only; the next goes to the GUI |
| NodeConnection.SearchOnClosedLinkThrows | src/pt/iscte/pcd/isctorrent/network/NodeConnection.java:113-119 | a search on a closed link throws `IOException` and writes nothing |
| ConnectionManager.ConnectToNode | src/pt/iscte/pcd/isctorrent/network/ConnectionManager.java:37-63 | a remote port outside 0..65535 escapes as the `Socket` constructor's `IllegalArgumentException`; otherwise, success exactly when the socket opens, the own address and port make a valid handshake and it is sent; the new link is appended carrying that handshake; an invalid handshake escapes as `IllegalArgumentException`; every failure leaves the list unchanged |
| ConnectionManager.ConnectTwiceGivesTwoLinks | src/pt/iscte/pcd/isctorrent/network/ConnectionManager.java:37-63 | the list is not de-duplicated: two connects to one peer leave two links |
| ConnectionManager.GetConnectionsForNode | src/pt/iscte/pcd/isctorrent/network/ConnectionManager.java:113-127 | at most one link, the first whose remote address and advertised listening port match, and none exactly when nothing matches |
| ConnectionManager.BroadcastSearch | src/pt/iscte/pcd/isctorrent/network/ConnectionManager.java:89-111 | the survivors are exactly the links whose send worked, in order, each with the collector set and the search written; each failure drops its link and credits the collector with one empty list |
| ConnectionManager.Shutdown | src/pt/iscte/pcd/isctorrent/network/ConnectionManager.java:133-147 | the list is emptied and the server stops; the links are dropped, not closed |
| ConnectionManager.AcceptConnection | src/pt/iscte/pcd/isctorrent/network/ConnectionManager.java:65-83 | while the server runs, an accepted socket becomes a new open link at the tail of the list, with no listening port yet and nothing sent; after shutdown nothing is added |
| ConnectionManager.ActiveConnectionsCount | src/pt/iscte/pcd/isctorrent/network/ConnectionManager.java:129-131 | `getActiveConnectionsCount()`: the number of links in the list |
| ConnectionManager.ActiveCountTracks | src/pt/iscte/pcd/isctorrent/network/ConnectionManager.java:65-139 | across one `connectToNode` call the active count rises by one exactly when it succeeds; an accepted link adds one while running; after shutdown it is zero |
| ConnectionManager.SearchGateOpens | src/pt/iscte/pcd/isctorrent/network/ConnectionManager.java:101-108 | a collector gated on every link opens once each failed send has been credited and every other peer answered, holding the local results then the answers |
| BlockPlan.TotalBlocksIsCeiling | src/pt/iscte/pcd/isctorrent/download/DownloadTasksManager.java:63 | `(size + BLOCK_SIZE - 1) / BLOCK_SIZE` is the least number of 10240-byte blocks covering the file |
| BlockPlan.Plan | src/pt/iscte/pcd/isctorrent/download/DownloadTasksManager.java:70-75 | the queue holds one request per block, block i at offset i·10240 with length min(10240, size - offset) |
| BlockPlan.BlockWithinFile | src/pt/iscte/pcd/isctorrent/download/DownloadTasksManager.java:71-74 | every planned block is non-empty, at most 10240 bytes, and inside the file |
| BlockPlan.InBlockIff | src/pt/iscte/pcd/isctorrent/download/DownloadTasksManager.java:72-73 | byte j lies in block i exactly when j / 10240 == i |
| BlockPlan.PlanTiles | src/pt/iscte/pcd/isctorrent/download/DownloadTasksManager.java:63-75 | the plan tiles the file: starts at 0, each block starts where the previous ended, the last ends at the size, and the lengths sum to the size |
| BlockPlan.PrefixSum | src/pt/iscte/pcd/isctorrent/download/DownloadTasksManager.java:71-74 | the first k blocks cover exactly the bytes before block k's offset |
| BlockPlan.PlanOf25000Bytes | src/pt/iscte/pcd/isctorrent/core/Constants.java:12 | with BLOCK_SIZE 10240, a 25000-byte file is fetched as 0+10240, 10240+10240, 20480+4520 |
| DownloadTasksManager.NodeKeyInjective | src/pt/iscte/pcd/isctorrent/download/DownloadTasksManager.java:124 | the per-peer key `address:port` tells distinct peers apart |
| DownloadTasksManager.SourceKeys | src/pt/iscte/pcd/isctorrent/download/DownloadTasksManager.java:54-58 | the counter keys are exactly the keys of the sources |
| DownloadTasksManager.StartDownload | src/pt/iscte/pcd/isctorrent/download/DownloadTasksManager.java:46-81 | the file gets a zero-filled buffer of its size, 0 of TotalBlocks received, the block plan as its queue, the start time, and a zero count for each source peer; every other file is untouched; the maps keep sharing one key set |
| DownloadTasksManager.RegisterWriter | src/pt/iscte/pcd/isctorrent/download/DownloadTasksManager.java:87-88 | the writer is registered after the locked part and nothing else changes |
| DownloadTasksManager.IsDownloadComplete | src/pt/iscte/pcd/isctorrent/download/DownloadTasksManager.java:185-192 | `isDownloadComplete(f)`: received blocks at least the planned total, each read with default 0 |
| DownloadTasksManager.UnknownFileIsComplete | src/pt/iscte/pcd/isctorrent/download/DownloadTasksManager.java:185-192 | a file the manager does not know counts as complete (0 ≥ 0) |
| DownloadTasksManager.EmptyFileCompleteAtStart | src/pt/iscte/pcd/isctorrent/download/DownloadTasksManager.java:63-65 | a started download is complete at once exactly when the file is empty |
| DownloadTasksManager.GetNextBlock | src/pt/iscte/pcd/isctorrent/download/DownloadTasksManager.java:92-119 | `null` exactly when the file has no queue or is complete, with nothing changed; otherwise the head of the file's queue is removed and returned, and nothing else changes |
| DownloadTasksManager.Bump | src/pt/iscte/pcd/isctorrent/download/DownloadTasksManager.java:127 | the peer's count goes up by one from its default 0, and every other count stays |
| DownloadTasksManager.CopyInto | src/pt/iscte/pcd/isctorrent/download/DownloadTasksManager.java:135 | `System.arraycopy` within bounds: the copied range takes the data and every other byte stays |
| DownloadTasksManager.WriteBlock | src/pt/iscte/pcd/isctorrent/download/DownloadTasksManager.java:130-139 | the copy count is min(data length, buffer length - (int) offset) in `int` arithmetic; it throws `IndexOutOfBoundsException` exactly for a positive count at a negative offset; otherwise the bytes land at the offset and the rest of the buffer stays |
| DownloadTasksManager.CountBlock | src/pt/iscte/pcd/isctorrent/download/DownloadTasksManager.java:124-128 | the sending peer's count is bumped and nothing else changes |
| DownloadTasksManager.RecordBlock | src/pt/iscte/pcd/isctorrent/download/DownloadTasksManager.java:141-142 | the buffer is replaced and the received count goes up by one; nothing else changes |
| DownloadTasksManager.NoticeFor | src/pt/iscte/pcd/isctorrent/download/DownloadTasksManager.java:147-157 | the writer hears only of a complete download: the per-peer counts and the time since the start; with no writer only an error is logged |
| DownloadTasksManager.SaveBlock | src/pt/iscte/pcd/isctorrent/download/DownloadTasksManager.java:121-163 | an unknown file changes nothing; otherwise the peer's count is bumped first; a throwing copy leaves only that bump; else the copy is applied and one more block counted, copied or not; a notice goes out exactly when the save completes the download; queues, totals, start times and writers never change |
| DownloadTasksManager.RequeueBlock | src/pt/iscte/pcd/isctorrent/download/DownloadTasksManager.java:203-214 | the block goes to the back of its file's queue; a file without a queue drops it; nothing else changes |
| DownloadTasksManager.ClaimThenRequeueRotates | src/pt/iscte/pcd/isctorrent/download/DownloadTasksManager.java:203-214 | claiming the head and requeueing it rotates the queue by one, keeping its multiset of blocks |
| DownloadTasksManager.GetFileData | src/pt/iscte/pcd/isctorrent/download/DownloadTasksManager.java:194-201 | the buffer of a started download, and `null` for any other name |
| DownloadTasksManager.Shutdown | src/pt/iscte/pcd/isctorrent/download/DownloadTasksManager.java:165-183 | every map and the writers are cleared |
| DownloadTasksManager.ShutdownReleasesWorkers | src/pt/iscte/pcd/isctorrent/download/DownloadTasksManager.java:165-183 | after shutdown every file counts as complete, `getNextBlock` returns `null` at once and no buffer is left |
| DownloadTasksManager.StartTracks | src/pt/iscte/pcd/isctorrent/download/DownloadTasksManager.java:61-65 | a started download of the original's size holds the original with no block in place and none received |
| DownloadTasksManager.WriteServedBlock | src/pt/iscte/pcd/isctorrent/download/DownloadTasksManager.java:130-139 | copying an honest answer to block i puts exactly block i's bytes of the original in place |
| DownloadTasksManager.SaveServedBlock | src/pt/iscte/pcd/isctorrent/download/DownloadTasksManager.java:121-163 | saving an honest answer to a block not yet received does not throw, puts its bytes in place and counts it once |
| DownloadTasksManager.SaveAll | src/pt/iscte/pcd/isctorrent/download/DownloadTasksManager.java:121-163 | saving honest answers to distinct planned blocks in any order leaves exactly those blocks in place, each counted once |
| DownloadTasksManager.CompleteIffAllSaved | src/pt/iscte/pcd/isctorrent/download/DownloadTasksManager.java:185-192 | a download is complete exactly when every planned block has been received, and its buffer is then the original file |
| DownloadTasksManager.CoversIff | src/pt/iscte/pcd/isctorrent/download/DownloadTasksManager.java:63-75 | the save order covers the plan exactly when every planned index occurs in it |
| DownloadTasksManager.Downloaded | src/pt/iscte/pcd/isctorrent/download/DownloadTasksManager.java:46-163 | `startDownload` followed by honest saves of distinct planned blocks leaves exactly those blocks in place |
| DownloadTasksManager.DownloadAssemblesFile | src/pt/iscte/pcd/isctorrent/download/DownloadTasksManager.java:46-163 | the received count equals the number of saves; the download is complete exactly when every block has been saved; the buffer is then the original file |
| DownloadTasksManager.CompletesOnlyAtLastSave | src/pt/iscte/pcd/isctorrent/download/DownloadTasksManager.java:141-157 | every proper prefix of a complete save order leaves the download incomplete, so the writer is notified by the last save only |
| DownloadTask.Spawn | src/pt/iscte/pcd/isctorrent/download/DownloadTask.java:14-18 | a new task runs for the file over its link with no block claimed |
| DownloadTask.RequestNext | src/pt/iscte/pcd/isctorrent/download/DownloadTask.java:24-30 | the task finishes, with nothing changed, exactly when the download is complete or has no queue; otherwise it claims the queue's head; a failed send kills it with `IOException` and loses the block; else it asks for that block on its link |
| DownloadTask.Dispatch | src/pt/iscte/pcd/isctorrent/download/DownloadTask.java:31-42 | a block answer is saved under the link's peer and the task dies exactly when saving throws; any other response requeues the claimed block; either way nothing is in flight any more |
| DownloadTask.ReceiveAndDispatch | src/pt/iscte/pcd/isctorrent/download/DownloadTask.java:31-37 | the mailbox holds only block answers, so the received answer is always saved and the mailbox emptied |
| DownloadTask.OtherResponseRequeues | src/pt/iscte/pcd/isctorrent/download/DownloadTask.java:33-37 | a response that is not a block answer rotates the queue: the same blocks, the claimed one last |
| DownloadTask.FailedSendDropsBlock | src/pt/iscte/pcd/isctorrent/download/DownloadTask.java:24-42 | a failed request kills its task with `IOException` and removes exactly its block from the queue, the task keeping no claim to it; if that was the queue's only block and the download is incomplete, `getNextBlock` for the file is disabled right after |
| DownloadTask.SoloStart | src/pt/iscte/pcd/isctorrent/download/DownloadTask.java:14-24 | after `startDownload` a lone task stands at block 0 with the whole plan queued |
| DownloadTask.SoloRound | src/pt/iscte/pcd/isctorrent/download/DownloadTask.java:24-37 | one round over an open link to an honest peer requests the next planned block, receives its answer through `handleMessage` and saves it, advancing one block |
| DownloadTask.SoloFinish | src/pt/iscte/pcd/isctorrent/download/DownloadTask.java:24-28 | once every block is in, the next turn finishes the task and the buffer is the original file |

## Left out

- Sockets, object streams and the listening socket are reduced to a `closed` flag, the list of messages sent, and failure oracles. One round of the accept loop is the step `AcceptConnection`; `serverSocket.accept` failing, and `NodeConnection.run` reading messages, are not modelled beyond `HandleMessage`.
- Links are values. The registry, each `DownloadTask` and each pending block request (by `LinkId`) hold their own copies, while in Java they share one `NodeConnection` object. An effect through one holder is not seen by the others. Two consequences are lost: `ConnectionManager.shutdown` closes every connection, so a download task's next send on it throws, whereas the model's `Shutdown` drops the registry's links and each task's copy stays open; and two downloads from the same peer share that connection's one-slot mailbox in Java, so one task can take the other's answer, or an undrained answer is overwritten, whereas each modelled task has its own mailbox.
- Threads and interleavings are not modelled: each locked method is one atomic step, and blocking is a precondition saying when the call can return. `notify`/`notifyAll` have no counterpart. `SyncCondition` is the exception: its Java monitor is part of the state, because the re-lock inside `await` holds it across steps.
- `InterruptedException` is not modelled anywhere. This covers `receiveResponse` wrapping it in `IOException`, `shutdownNow`, the worker interrupts in `MyThreadPool.shutdown`, and the interrupt in `DownloadTask`'s catch block.
- Java `long` overflow (timestamps, `timeoutSeconds * 1000`) and `int` overflow of the block counters are not modelled: those values are unbounded integers. The `(int)` casts in `saveBlock` are modelled.
- Strings are sequences of Dafny characters, not UTF-16 code units.
- The GUI, `FileManager` (local search and block reads), `FileWriterThread` (writing to disk), `IscTorrent`, `Main`, `ClientHandler`, `concurrency.MyCondition` and the older copies under `src/download`, `src/network`, `src/protocol` and `src/gui` are not part of this model. Their results enter as parameters.
- `establishReturnConnection` is called by `handleMessage` but defined nowhere in `ConnectionManager`. It appears only as the `ReturnConnection` effect.
- `SearchResultsCollector` declares a `java.util.concurrent.CountDownLatch`. Its gate is modelled with the floor-at-zero semantics of `SyncLatch`.
- Getters, `toString` and record accessors are datatype fields or are omitted: they compute nothing.
- `startDownload`'s submission of one `DownloadTask` per source to the executor is modelled only as `DownloadTask.Spawn`. The fixed pool of 5 download threads is not modelled.
- StartDownload: requires 0 ≤ fileSize ≤ 2^31 - 1. The `(int)` cast of a larger or negative size, and the `NegativeArraySizeException` it could raise, are not modelled.
- `startDownload`'s writer registration is an unsynchronised `HashMap.put` made after the lock is released. It is modelled as the separate step `RegisterWriter`, so a save that completes the download before registration logs "writer missing".
- ConnectionManager.ConnectToNode: an unknown host, which the `Socket` constructor reports as an `IOException`, is folded into the `openFails` oracle. The remote-port range check is modelled.
- BlockRequests.ProcessRequest: returns the answer to send. Whether sending it fails is not modelled, because that failure is an `IOException`, caught and logged by both processors with no effect on the queue. The file read is an oracle whose error is `IOException` or `NegativeArraySizeException`; which inputs of `FileManager.readFileBlock` give which is not modelled.
- BlockRequests.Take: the processor's wait on `sync.MyCondition` is abstracted to enabledness, so the deadlock `SyncCondition.BargingDeadlock` exhibits for two `addRequest` callers against `BlockRequestHandler`'s processor does not show up in `BlockRequests`.
- `BlockRequestHandler.shutdown` uses `signal` and `BlockRequestQueue.shutdown` uses `signalAll`. Both stop the processor in the model, because waking is enabledness.
- DownloadTasksManager.GetNextBlock: the wait is modelled as enabledness over the current map. In Java a caller looks up the file's queue once, before waiting. If `startDownload` restarts the same name meanwhile, that caller keeps waiting on the old, empty queue, which nothing feeds, until the new download completes or the manager shuts down, and then gets `null`. The model lets it take from the new queue instead.
- DownloadTasksManager.SaveAll, DownloadTasksManager.Downloaded and DownloadTask.SoloRound: model one honest peer counted under one key. Concurrent tasks racing for blocks, and dishonest or mismatched answers, are covered only by the single-step contracts of `SaveBlock`, `WriteBlock` and `Dispatch`.
