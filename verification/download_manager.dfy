/** `download.DownloadTasksManager`: the per-file bookkeeping of the
    downloads in progress. Every public method runs under the manager's
    lock, so each one is a single step on an immutable `Manager`; the wait
    inside `getNextBlock` becomes the precondition `CanGetNextBlock`, and
    the `signalAll` calls have no counterpart because waiting is modelled
    as enabledness. */
module DownloadTasksManager {
  import opened Common
  import opened Protocol
  import JavaText
  import NodeConnection
  import opened BlockPlan

  /** The manager's maps, keyed by file name. `writers` holds the names
      whose `FileWriterThread` has been registered. */
  datatype Manager = Manager(
    pending: map<string, seq<FileBlockRequestMessage>>,
    fileData: map<string, seq<byte>>,
    received: map<string, int>,
    total: map<string, int>,
    blocksPerNode: map<string, map<string, int>>,
    startTime: map<string, int>,
    writers: set<string>)

  /** The manager as constructed, and as `shutdown` leaves it. */
  const Idle: Manager := Manager(map[], map[], map[], map[], map[], map[], {})

  /** `startDownload` fills the six maps together and `shutdown` clears
      them together, so they always share their key set; a buffer is a Java
      array, so its length is an `int`. */
  predicate Valid(m: Manager) {
    && m.pending.Keys == m.fileData.Keys
    && m.received.Keys == m.fileData.Keys
    && m.total.Keys == m.fileData.Keys
    && m.blocksPerNode.Keys == m.fileData.Keys
    && m.startTime.Keys == m.fileData.Keys
    && (forall f :: f in m.fileData ==> |m.fileData[f]| <= INT_MAX)
  }

  /** The key a peer is counted under: `address + ":" + port`. */
  function NodeKey(address: string, port: int): string {
    address + ":" + JavaText.IntToString(port)
  }

  /** Distinct peers get distinct keys, even when the address holds colons. */
  lemma NodeKeyInjective(a1: string, p1: int, a2: string, p2: int)
    requires NodeKey(a1, p1) == NodeKey(a2, p2)
    ensures a1 == a2 && p1 == p2
  {
    JavaText.ColonJoinInjective(a1, JavaText.IntToString(p1), a2, JavaText.IntToString(p2));
    JavaText.IntToStringInjective(p1, p2);
  }

  /** The key of the peer at the other end of `l`. */
  function LinkKey(l: NodeConnection.Link): string {
    NodeKey(l.remoteAddress, l.remotePort)
  }

  /** `a` and `b` agree on every key other than `f`. */
  predicate AgreeElsewhere<V(==)>(a: map<string, V>, b: map<string, V>, f: string) {
    a - {f} == b - {f}
  }

  /** Updating the entry of `f` leaves every other entry as it was. */
  lemma UpdateAgrees<V>(a: map<string, V>, f: string, v: V)
    ensures AgreeElsewhere(a, a[f := v], f)
  {
    assert a - {f} == a[f := v] - {f};
  }

  /** Nothing about files other than `f` differs between `m` and `r`. */
  predicate OthersUnchanged(m: Manager, r: Manager, f: string) {
    && AgreeElsewhere(m.pending, r.pending, f)
    && AgreeElsewhere(m.fileData, r.fileData, f)
    && AgreeElsewhere(m.received, r.received, f)
    && AgreeElsewhere(m.total, r.total, f)
    && AgreeElsewhere(m.blocksPerNode, r.blocksPerNode, f)
    && AgreeElsewhere(m.startTime, r.startTime, f)
    && r.writers == m.writers
  }

  /** A `new byte[n]`. */
  function Zeros(n: nat): (r: seq<byte>)
    ensures |r| == n && forall j :: 0 <= j < n ==> r[j] == 0
  {
    seq(n, _ => 0)
  }

  /** The keys of the peers in `sources`; a peer listed twice counts once. */
  function SourceKeys(sources: seq<NodeConnection.Link>): (keys: set<string>)
    ensures forall l :: l in sources ==> LinkKey(l) in keys
    ensures forall k :: k in keys ==> exists l :: l in sources && LinkKey(l) == k
  {
    set l | l in sources :: LinkKey(l)
  }

  /** The locked part of `startDownload(file, sources, dir)` at time `now`:
      the file gets a zero-filled buffer of `fileSize` bytes, no block
      received out of `TotalBlocks(fileSize)`, a queue holding the block
      plan in order, and a zero count for every source peer. An earlier
      download of the same name is overwritten; other files are untouched,
      and the file's writer is not registered yet. */
  function StartDownload(m: Manager, file: FileSearchResult, sources: seq<NodeConnection.Link>, now: int): (r: Manager)
    requires 0 <= file.fileSize <= INT_MAX
    ensures var f := file.fileName;
      && f in r.fileData && f in r.received && f in r.total && f in r.pending
      && f in r.startTime && f in r.blocksPerNode
      && r.fileData[f] == Zeros(file.fileSize)
      && r.received[f] == 0
      && r.total[f] == TotalBlocks(file.fileSize)
      && r.pending[f] == Plan(f, file.fileSize)
      && r.startTime[f] == now
      && r.blocksPerNode[f].Keys == SourceKeys(sources)
      && (forall k :: k in r.blocksPerNode[f] ==> r.blocksPerNode[f][k] == 0)
      && OthersUnchanged(m, r, f)
    ensures Valid(m) ==> Valid(r)
  {
    var f := file.fileName;
    var size := file.fileSize;
    var counter := map k | k in SourceKeys(sources) :: 0;
    UpdateAgrees(m.startTime, f, now);
    UpdateAgrees(m.blocksPerNode, f, counter);
    UpdateAgrees(m.fileData, f, Zeros(size));
    UpdateAgrees(m.total, f, TotalBlocks(size));
    UpdateAgrees(m.received, f, 0);
    UpdateAgrees(m.pending, f, Plan(f, size));
    m.(startTime := m.startTime[f := now],
       blocksPerNode := m.blocksPerNode[f := counter],
       fileData := m.fileData[f := Zeros(size)],
       total := m.total[f := TotalBlocks(size)],
       received := m.received[f := 0],
       pending := m.pending[f := Plan(f, size)])
  }

  /** The registration of the file's `FileWriterThread`, which
      `startDownload` performs after releasing the lock and after
      submitting the download tasks. */
  function RegisterWriter(m: Manager, f: string): (r: Manager)
    ensures r.writers == m.writers + {f}
    ensures r.(writers := m.writers) == m
  {
    m.(writers := m.writers + {f})
  }

  /** `isDownloadComplete(f)`: at least as many blocks received as planned,
      both counting as 0 for a file the manager does not know. */
  predicate IsDownloadComplete(m: Manager, f: string) {
    GetOrDefault(m.received, f, 0) >= GetOrDefault(m.total, f, 0)
  }

  /** A file the manager does not know counts as complete. */
  lemma UnknownFileIsComplete(m: Manager, f: string)
    requires f !in m.received && f !in m.total
    ensures IsDownloadComplete(m, f)
  {
  }

  /** An empty file is complete as soon as it is started, with no block to
      fetch. */
  lemma EmptyFileCompleteAtStart(m: Manager, file: FileSearchResult, sources: seq<NodeConnection.Link>, now: int)
    requires 0 <= file.fileSize <= INT_MAX
    ensures var r := StartDownload(m, file, sources, now);
      IsDownloadComplete(r, file.fileName) <==> file.fileSize == 0
  {
    TotalBlocksIsCeiling(file.fileSize);
  }

  /** `getNextBlock(f)` returns without waiting: the file has no queue, its
      queue is non-empty, or its download is complete. */
  predicate CanGetNextBlock(m: Manager, f: string) {
    f !in m.pending || m.pending[f] != [] || IsDownloadComplete(m, f)
  }

  datatype Next = Next(manager: Manager, block: Option<FileBlockRequestMessage>)

  /** `getNextBlock(f)`: `null` when the file has no queue or is complete,
      and then nothing changes; otherwise the head of the file's queue is
      removed and returned. */
  function GetNextBlock(m: Manager, f: string): (r: Next)
    requires CanGetNextBlock(m, f)
    ensures r.block.None? <==> f !in m.pending || IsDownloadComplete(m, f)
    ensures r.block.None? ==> r.manager == m
    ensures r.block.Some? ==> f in r.manager.pending && m.pending[f] == [r.block.value] + r.manager.pending[f]
    ensures r.manager.(pending := m.pending) == m
    ensures AgreeElsewhere(m.pending, r.manager.pending, f)
    ensures Valid(m) ==> Valid(r.manager)
  {
    if f !in m.pending || IsDownloadComplete(m, f) then Next(m, None)
    else Next(m.(pending := m.pending[f := m.pending[f][1..]]), Some(m.pending[f][0]))
  }

  /** `counter.put(key, counter.getOrDefault(key, 0) + 1)` */
  function Bump(counter: map<string, int>, key: string): (r: map<string, int>)
    ensures r.Keys == counter.Keys + {key}
    ensures r[key] == GetOrDefault(counter, key, 0) + 1
    ensures forall k :: k in counter && k != key ==> r[k] == counter[k]
  {
    counter[key := GetOrDefault(counter, key, 0) + 1]
  }

  /** The byte count `saveBlock` copies: the answer's length, capped by the
      room left in the buffer after the offset, in `int` arithmetic (the
      offset is narrowed to `int` and the subtraction may wrap). */
  function CopyLength(bufferLength: nat, dataLength: nat, offset: int): int {
    Min(dataLength, ToInt32(bufferLength - ToInt32(offset)))
  }

  /** `System.arraycopy(data, 0, buffer, offset, count)` within bounds. */
  function CopyInto(buffer: seq<byte>, data: seq<byte>, offset: nat, count: nat): (r: seq<byte>)
    requires count <= |data| && offset + count <= |buffer|
    ensures |r| == |buffer|
    ensures forall j :: 0 <= j < |buffer| ==>
      r[j] == if offset <= j < offset + count then data[j - offset] else buffer[j]
  {
    buffer[..offset] + data[..count] + buffer[offset + count..]
  }

  /** The copy step of `saveBlock` on a buffer: `CopyLength` bytes of the
      answer land at the answer's offset, narrowed to `int`; a count of zero
      or less copies nothing, and a negative offset with a positive count
      makes `System.arraycopy` throw with the buffer untouched. */
  function WriteBlock(buffer: seq<byte>, answer: FileBlockAnswerMessage): (r: Result<seq<byte>>)
    requires |buffer| <= INT_MAX
    ensures var offset, count := ToInt32(answer.offset), CopyLength(|buffer|, |answer.data|, answer.offset);
      && (r.Err? <==> count > 0 && offset < 0)
      && (r.Err? ==> r.error == IndexOutOfBoundsException)
      && (r.Ok? ==> |r.value| == |buffer|)
      && (r.Ok? ==> forall j :: 0 <= j < |buffer| ==>
            r.value[j] == if offset <= j < offset + count then answer.data[j - offset] else buffer[j])
  {
    var offset := ToInt32(answer.offset);
    var count := CopyLength(|buffer|, |answer.data|, answer.offset);
    if count <= 0 then Ok(buffer)
    else if offset < 0 then Err(IndexOutOfBoundsException)
    else Ok(CopyInto(buffer, answer.data, offset, count))
  }

  /** What `saveBlock` tells the file's writer: nothing; the per-peer counts
      and the elapsed time; or, with no writer registered, an error log. */
  datatype Notice = Silent | Notified(counts: map<string, int>, elapsed: int) | WriterMissing

  datatype Saved = Saved(manager: Manager, outcome: Outcome, notice: Notice)

  /** The first step of `saveBlock`: one more block from `nodeKey`. */
  function CountBlock(m: Manager, f: string, nodeKey: string): (r: Manager)
    requires Valid(m) && f in m.blocksPerNode
    ensures r == m.(blocksPerNode := m.blocksPerNode[f := Bump(m.blocksPerNode[f], nodeKey)])
    ensures Valid(r)
  {
    m.(blocksPerNode := m.blocksPerNode[f := Bump(m.blocksPerNode[f], nodeKey)])
  }

  /** The second step of `saveBlock`: the buffer of `f` replaced by its
      updated copy, and one more block received. */
  function RecordBlock(m: Manager, f: string, buffer: seq<byte>): (r: Manager)
    requires Valid(m) && f in m.fileData && |buffer| == |m.fileData[f]|
    ensures r == m.(fileData := m.fileData[f := buffer], received := m.received[f := m.received[f] + 1])
    ensures Valid(r)
  {
    m.(fileData := m.fileData[f := buffer], received := m.received[f := m.received[f] + 1])
  }

  /** The last step of `saveBlock`, once the block is recorded. */
  function NoticeFor(m: Manager, f: string, now: int): (n: Notice)
    requires f in m.blocksPerNode
    ensures n != Silent <==> IsDownloadComplete(m, f)
    ensures n.Notified? <==> n != Silent && f in m.writers
    ensures n.Notified? ==> n.counts == m.blocksPerNode[f] && n.elapsed == now - GetOrDefault(m.startTime, f, 0)
  {
    if !IsDownloadComplete(m, f) then Silent
    else if f in m.writers then Notified(m.blocksPerNode[f], now - GetOrDefault(m.startTime, f, 0))
    else WriterMissing
  }

  /** `saveBlock(f, answer, connection)` at time `now`, the connection's
      peer being `nodeKey`. The peer's count is bumped first. For a known
      file the answer's bytes are then copied as `WriteBlock` says; when
      that throws, the count stays bumped and the received counter does not
      move. Otherwise one more block is received, whether or not bytes were
      copied, and once the download is complete the writer is notified. An
      unknown file changes nothing. */
  function SaveBlock(m: Manager, f: string, answer: FileBlockAnswerMessage, nodeKey: string, now: int): (r: Saved)
    requires Valid(m)
    ensures f !in m.fileData ==> r == Saved(m, Done, Silent)
    ensures f in m.fileData ==>
      var counted := m.(blocksPerNode := m.blocksPerNode[f := Bump(m.blocksPerNode[f], nodeKey)]);
      var written := WriteBlock(m.fileData[f], answer);
      && (r.outcome.Threw? <==> written.Err?)
      && (written.Err? ==> r.manager == counted && r.outcome == Threw(written.error))
      && (written.Ok? ==> r.manager == counted.(fileData := counted.fileData[f := written.value],
                                                received := counted.received[f := counted.received[f] + 1]))
    ensures r.manager.pending == m.pending && r.manager.total == m.total
    ensures r.manager.startTime == m.startTime && r.manager.writers == m.writers
    ensures r.manager.fileData.Keys == m.fileData.Keys
    ensures r.notice != Silent <==> r.outcome.Done? && f in m.fileData && IsDownloadComplete(r.manager, f)
    ensures r.notice.Notified? <==> r.notice != Silent && f in m.writers
    ensures r.notice.Notified? ==>
      r.notice.counts == r.manager.blocksPerNode[f] && r.notice.elapsed == now - m.startTime[f]
    ensures Valid(r.manager)
  {
    if f !in m.fileData then Saved(m, Done, Silent)
    else
      var counted := CountBlock(m, f, nodeKey);
      var written := WriteBlock(m.fileData[f], answer);
      if written.Err? then Saved(counted, Threw(written.error), Silent)
      else
        var saved := RecordBlock(counted, f, written.value);
        Saved(saved, Done, NoticeFor(saved, f, now))
  }

  /** `requeueBlock(block)`: the block goes to the back of its file's
      queue; a file without a queue drops it. Nothing else changes. */
  function RequeueBlock(m: Manager, block: FileBlockRequestMessage): (r: Manager)
    ensures block.fileName in m.pending ==>
      r.pending.Keys == m.pending.Keys && r.pending[block.fileName] == m.pending[block.fileName] + [block]
    ensures block.fileName !in m.pending ==> r == m
    ensures AgreeElsewhere(m.pending, r.pending, block.fileName)
    ensures r.(pending := m.pending) == m
    ensures Valid(m) ==> Valid(r)
  {
    var f := block.fileName;
    if f in m.pending then m.(pending := m.pending[f := m.pending[f] + [block]]) else m
  }

  /** Claiming the head of a queue and requeueing it rotates the queue by
      one: no block is lost or duplicated. */
  lemma ClaimThenRequeueRotates(m: Manager, f: string)
    requires f in m.pending && m.pending[f] != [] && !IsDownloadComplete(m, f)
    requires m.pending[f][0].fileName == f
    ensures var n := GetNextBlock(m, f);
      && n.block == Some(m.pending[f][0])
      && RequeueBlock(n.manager, n.block.value) == m.(pending := m.pending[f := m.pending[f][1..] + [m.pending[f][0]]])
      && multiset(RequeueBlock(n.manager, n.block.value).pending[f]) == multiset(m.pending[f])
  {
    var q := m.pending[f];
    assert q == [q[0]] + q[1..];
  }

  /** `getFileData(f)`: the buffer of a started download, `null` for any
      other name. */
  function GetFileData(m: Manager, f: string): (r: Option<seq<byte>>)
    ensures r.Some? <==> f in m.fileData
    ensures r.Some? ==> r.value == m.fileData[f]
  {
    if f in m.fileData then Some(m.fileData[f]) else None
  }

  /** `shutdown()`: every map is cleared and every writer forgotten. */
  function Shutdown(m: Manager): (r: Manager)
    ensures Valid(r)
    ensures r.fileData == map[] && r.writers == {}
  {
    Idle
  }

  /** After `shutdown()` no worker waits any more: every file counts as
      complete and `getNextBlock` returns `null` at once. */
  lemma ShutdownReleasesWorkers(m: Manager, f: string)
    ensures IsDownloadComplete(Shutdown(m), f)
    ensures CanGetNextBlock(Shutdown(m), f) && GetNextBlock(Shutdown(m), f).block.None?
    ensures GetFileData(Shutdown(m), f).None?
  {
  }

  /** The answer a peer holding `original` gives to the request `b`. */
  function Serve(original: seq<byte>, b: FileBlockRequestMessage): FileBlockAnswerMessage
    requires 0 <= b.offset && 0 <= b.length && b.offset + b.length <= |original|
  {
    FileBlockAnswerMessage(original[b.offset..b.offset + b.length], b.offset)
  }

  /** The answer a peer holding `original` gives to planned block `i`. */
  function AnswerTo(original: seq<byte>, f: string, i: nat): FileBlockAnswerMessage
    requires i < TotalBlocks(|original|)
  {
    BlockWithinFile(f, |original|, i);
    Serve(original, BlockAt(f, |original|, i))
  }

  /** The buffer of a download of `original` once the blocks whose indices
      are in `saved` have arrived: their bytes in place, zeros elsewhere. */
  function Assembled(original: seq<byte>, saved: set<int>): (r: seq<byte>)
    ensures |r| == |original|
  {
    seq(|original|, j requires 0 <= j < |original| => if j / BLOCK_SIZE in saved then original[j] else 0)
  }

  /** The integers `0 .. n - 1`. */
  function Range(n: nat): (r: set<int>)
    ensures forall i :: i in r <==> 0 <= i < n
    ensures |r| == n
  {
    if n == 0 then {} else Range(n - 1) + {n - 1}
  }

  /** The indices of all planned blocks. */
  function AllBlocks(size: nat): set<int> {
    Range(TotalBlocks(size))
  }

  /** The download of `original` under the name `f` has received exactly
      the blocks in `saved`, each once. */
  ghost predicate Tracking(m: Manager, f: string, original: seq<byte>, saved: set<int>) {
    && Valid(m)
    && f in m.fileData
    && |original| <= INT_MAX
    && m.fileData[f] == Assembled(original, saved)
    && m.received[f] == |saved|
    && m.total[f] == TotalBlocks(|original|)
    && saved <= AllBlocks(|original|)
  }

  /** `startDownload` of a file the size of `original` starts tracking it
      with no block received. */
  lemma StartTracks(m: Manager, file: FileSearchResult, sources: seq<NodeConnection.Link>, now: int, original: seq<byte>)
    requires file.fileSize == |original| <= INT_MAX
    requires Valid(m)
    ensures Tracking(StartDownload(m, file, sources, now), file.fileName, original, {})
  {
    var r := StartDownload(m, file, sources, now);
    assert r.fileData[file.fileName] == Assembled(original, {});
  }

  /** Copying the answer to planned block `i` into the buffer of a
      download of `original` puts that block's bytes in place. */
  lemma WriteServedBlock(original: seq<byte>, f: string, saved: set<int>, i: nat)
    requires |original| <= INT_MAX && i < TotalBlocks(|original|)
    ensures WriteBlock(Assembled(original, saved), AnswerTo(original, f, i)) == Ok(Assembled(original, saved + {i}))
  {
    var n := |original|;
    var b := BlockAt(f, n, i);
    BlockWithinFile(f, n, i);
    var answer := AnswerTo(original, f, i);
    var buffer := Assembled(original, saved);
    assert ToInt32(answer.offset) == b.offset;
    assert CopyLength(|buffer|, |answer.data|, answer.offset) == b.length;
    var written := WriteBlock(buffer, answer);
    assert written.Ok?;
    forall j | 0 <= j < n
      ensures written.value[j] == Assembled(original, saved + {i})[j]
    {
      InBlockIff(f, n, i, j);
    }
    assert written.value == Assembled(original, saved + {i});
  }

  /** Saving the answer to a planned block not yet received writes its bytes
      in place, counts it once, and throws nothing. */
  lemma SaveServedBlock(m: Manager, f: string, original: seq<byte>, saved: set<int>, i: nat, key: string, now: int)
    requires Tracking(m, f, original, saved)
    requires i < TotalBlocks(|original|) && i !in saved
    ensures var r := SaveBlock(m, f, AnswerTo(original, f, i), key, now);
      r.outcome == Done && Tracking(r.manager, f, original, saved + {i})
  {
    WriteServedBlock(original, f, saved, i);
  }

  /** The indices of `order`, as a set. */
  function Indices(order: seq<nat>): (r: set<int>)
    ensures forall k :: k in r <==> k in order
    decreases |order|
  {
    if order == [] then {} else Indices(order[..|order| - 1]) + {order[|order| - 1]}
  }

  predicate Distinct(order: seq<nat>) {
    forall a, b :: 0 <= a < b < |order| ==> order[a] != order[b]
  }

  /** Every index in `order` names a planned block of a `size`-byte file. */
  predicate InPlan(order: seq<nat>, size: nat) {
    forall k :: 0 <= k < |order| ==> order[k] < TotalBlocks(size)
  }

  /** In a sequence without repeats the last element is not among the
      others, and the others have no repeats either. */
  lemma LastIsNew(order: seq<nat>)
    requires Distinct(order) && order != []
    ensures order[|order| - 1] !in Indices(order[..|order| - 1])
    ensures Distinct(order[..|order| - 1])
  {
    var prefix := order[..|order| - 1];
    forall k | 0 <= k < |prefix|
      ensures prefix[k] != order[|order| - 1]
    {
      assert prefix[k] == order[k];
    }
  }

  /** A sequence without repeats has as many indices as elements. */
  lemma {:induction false} DistinctIndices(order: seq<nat>)
    requires Distinct(order)
    ensures |Indices(order)| == |order|
    decreases |order|
  {
    if order != [] {
      var prefix := order[..|order| - 1];
      LastIsNew(order);
      DistinctIndices(prefix);
    }
  }

  /** Saves, in `order`, the honest answers to the planned blocks of
      `original`, all from the peer `key`. Distinct planned blocks, saved in
      any order, land in place and are each counted once. */
  function SaveAll(m: Manager, f: string, original: seq<byte>, order: seq<nat>, key: string, now: int): (r: Manager)
    requires Tracking(m, f, original, {})
    requires Distinct(order) && InPlan(order, |original|)
    ensures Tracking(r, f, original, Indices(order))
    decreases |order|
  {
    if order == [] then m
    else
      var prefix, i := order[..|order| - 1], order[|order| - 1];
      LastIsNew(order);
      var prev := SaveAll(m, f, original, prefix, key, now);
      SaveServedBlock(prev, f, original, Indices(prefix), i, key, now);
      SaveBlock(prev, f, AnswerTo(original, f, i), key, now).manager
  }

  /** A tracked download is complete exactly when every planned block has
      been received; it is then the original file, byte for byte. */
  lemma CompleteIffAllSaved(m: Manager, f: string, original: seq<byte>, saved: set<int>)
    requires Tracking(m, f, original, saved)
    ensures IsDownloadComplete(m, f) <==> saved == AllBlocks(|original|)
    ensures saved == AllBlocks(|original|) ==> m.fileData[f] == original
  {
    var n := |original|;
    Common.SubsetCount(saved, AllBlocks(n));
    if saved == AllBlocks(n) {
      TotalBlocksIsCeiling(n);
      forall j | 0 <= j < n
        ensures j / BLOCK_SIZE in saved
      {
      }
    }
  }

  /** An order of planned blocks names them all exactly when its indices
      are all the planned blocks. */
  lemma CoversIff(order: seq<nat>, size: nat)
    requires InPlan(order, size)
    ensures Indices(order) == AllBlocks(size) <==> forall i :: 0 <= i < TotalBlocks(size) ==> i in order
  {
    if forall i :: 0 <= i < TotalBlocks(size) ==> i in order {
      assert Indices(order) == AllBlocks(size);
    }
  }

  /** The manager once `startDownload(file, ...)` has run at `start` and the
      honest answers to the blocks in `order` have been saved at `now`. */
  function Downloaded(m: Manager, file: FileSearchResult, sources: seq<NodeConnection.Link>, start: int,
                      original: seq<byte>, order: seq<nat>, key: string, now: int): (r: Manager)
    requires Valid(m) && file.fileSize == |original| <= INT_MAX
    requires Distinct(order) && InPlan(order, |original|)
    ensures Tracking(r, file.fileName, original, Indices(order))
  {
    StartTracks(m, file, sources, start, original);
    SaveAll(StartDownload(m, file, sources, start), file.fileName, original, order, key, now)
  }

  /** The whole download: after `startDownload`, saving the honest answers
      to distinct planned blocks in any order counts one block per save; the
      download is complete exactly when every block has been saved, and the
      buffer then holds the original file. */
  lemma DownloadAssemblesFile(m: Manager, file: FileSearchResult, sources: seq<NodeConnection.Link>, start: int,
                              original: seq<byte>, order: seq<nat>, key: string, now: int)
    requires Valid(m) && file.fileSize == |original| <= INT_MAX
    requires Distinct(order) && InPlan(order, |original|)
    ensures var r := Downloaded(m, file, sources, start, original, order, key, now);
      && r.received[file.fileName] == |order| <= TotalBlocks(|original|)
      && (IsDownloadComplete(r, file.fileName) <==> forall i :: 0 <= i < TotalBlocks(|original|) ==> i in order)
      && (IsDownloadComplete(r, file.fileName) ==> r.fileData[file.fileName] == original)
  {
    var f := file.fileName;
    var n := |original|;
    DistinctIndices(order);
    var r := Downloaded(m, file, sources, start, original, order, key, now);
    CompleteIffAllSaved(r, f, original, Indices(order));
    Common.SubsetCount(Indices(order), AllBlocks(n));
    CoversIff(order, n);
  }

  /** Only the last save of a download completes it, so the writer is
      notified once: every earlier prefix of a complete order leaves the
      download incomplete. */
  lemma CompletesOnlyAtLastSave(m: Manager, file: FileSearchResult, sources: seq<NodeConnection.Link>, start: int,
                                original: seq<byte>, order: seq<nat>, key: string, now: int, k: nat)
    requires Valid(m) && file.fileSize == |original| <= INT_MAX
    requires Distinct(order) && InPlan(order, |original|) && k < |order|
    requires forall i :: 0 <= i < TotalBlocks(|original|) ==> i in order
    ensures !IsDownloadComplete(Downloaded(m, file, sources, start, original, order[..k], key, now), file.fileName)
  {
    var prefix := order[..k];
    DistinctIndices(order);
    DistinctIndices(prefix);
    Common.SubsetCount(Indices(order), AllBlocks(|original|));
    var r := Downloaded(m, file, sources, start, original, prefix, key, now);
    CompleteIffAllSaved(r, file.fileName, original, Indices(prefix));
  }
}
