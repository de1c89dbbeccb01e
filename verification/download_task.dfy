/** `download.DownloadTask`: the worker that fetches the blocks of one file
    over one peer link. Its loop is cut at the one place it blocks, the wait
    for the answer: `RequestNext` runs from the loop head through
    `sendMessage`, and `Dispatch` handles what `receiveResponse` returned.
    An exception anywhere ends the task; the block it had claimed is then
    not given back. */
module DownloadTask {
  import opened Common
  import opened Protocol
  import NodeConnection
  import M = DownloadTasksManager
  import BlockPlan

  datatype Status = Running | Finished | Died(error: Error)

  /** A task between two steps: the file, the link it downloads over, the
      block it has asked for and not yet answered, and whether it runs. */
  datatype Task = Task(fileName: string, link: NodeConnection.Link, claimed: Option<FileBlockRequestMessage>, status: Status)

  /** `new DownloadTask(file, connection, manager)`, as submitted. */
  function Spawn(file: FileSearchResult, link: NodeConnection.Link): (t: Task)
    ensures t.fileName == file.fileName && t.link == link
    ensures t.status == Running && t.claimed == None
  {
    Task(file.fileName, link, None, Running)
  }

  datatype Turn = Turn(manager: M.Manager, task: Task, notice: M.Notice)

  /** The loop head can run: the task is running, has no block in flight,
      and `getNextBlock` would not wait. */
  predicate CanRequest(m: M.Manager, t: Task) {
    t.status.Running? && t.claimed.None? && M.CanGetNextBlock(m, t.fileName)
  }

  /** The loop head: a complete download, or a `null` block, ends the task
      with nothing changed. Otherwise the head of the file's queue is
      claimed and requested over the link; a failed send ends the task
      with `IOException`, the block gone from the queue and claimed by no
      one. */
  function RequestNext(m: M.Manager, t: Task, writeFails: bool): (r: Turn)
    requires M.Valid(m) && CanRequest(m, t)
    ensures r.notice == M.Silent && r.task.fileName == t.fileName
    ensures r.task.status.Finished? <==> M.IsDownloadComplete(m, t.fileName) || t.fileName !in m.pending
    ensures r.task.status.Finished? ==> r.manager == m && r.task == t.(status := Finished)
    ensures !r.task.status.Finished? ==>
      var f := t.fileName;
      && f in m.pending && m.pending[f] != []
      && f in r.manager.pending && r.manager.pending[f] == m.pending[f][1..]
      && r.manager.(pending := m.pending) == m
    ensures r.task.status.Died? <==>
      !r.task.status.Finished? && (t.link.closed || writeFails)
    ensures r.task.status.Died? ==>
      r.task.status.error == IOException && r.task.link == t.link && r.task.claimed == None
    ensures r.task.status.Running? ==>
      var head := m.pending[t.fileName][0];
      && r.task.claimed == Some(head)
      && r.task.link == t.link.(sent := t.link.sent + [BlockRequest(head)])
    ensures M.Valid(r.manager)
  {
    var f := t.fileName;
    if M.IsDownloadComplete(m, f) then Turn(m, t.(status := Finished), M.Silent)
    else
      var next := M.GetNextBlock(m, f);
      if next.block.None? then Turn(m, t.(status := Finished), M.Silent)
      else
        var sent := NodeConnection.Send(t.link, BlockRequest(next.block.value), writeFails);
        if sent.outcome.Threw? then Turn(next.manager, t.(status := Died(sent.outcome.error)), M.Silent)
        else Turn(next.manager, t.(link := sent.state, claimed := next.block), M.Silent)
  }

  /** The task waits for the answer to its claimed block. */
  predicate AwaitingAnswer(t: Task) {
    t.status.Running? && t.claimed.Some?
  }

  /** The loop body after `receiveResponse()` returned `response`: a block
      answer is saved under the link's peer, and the task dies if saving
      throws; any other response puts the claimed block back at the end of
      the queue. Either way the block is no longer in flight. */
  function Dispatch(m: M.Manager, t: Task, response: Message, now: int): (r: Turn)
    requires M.Valid(m) && AwaitingAnswer(t)
    ensures r.task == t.(claimed := None, status := r.task.status)
    ensures response.BlockAnswer? ==>
      var saved := M.SaveBlock(m, t.fileName, response.answer, M.LinkKey(t.link), now);
      && r.manager == saved.manager && r.notice == saved.notice
      && (r.task.status.Running? <==> saved.outcome.Done?)
      && (saved.outcome.Threw? ==> r.task.status == Died(saved.outcome.error))
    ensures !response.BlockAnswer? ==>
      r.manager == M.RequeueBlock(m, t.claimed.value) && r.task.status.Running? && r.notice == M.Silent
    ensures M.Valid(r.manager)
  {
    var done := t.(claimed := None);
    if response.BlockAnswer? then
      var saved := M.SaveBlock(m, t.fileName, response.answer, M.LinkKey(t.link), now);
      var status := if saved.outcome.Done? then Running else Died(saved.outcome.error);
      Turn(saved.manager, done.(status := status), saved.notice)
    else
      Turn(M.RequeueBlock(m, t.claimed.value), done, M.Silent)
  }

  /** `receiveResponse()` then the rest of the loop body: the link's mailbox
      only ever holds block answers, so the answer it held is saved, under
      the link's own peer, and the mailbox is emptied. */
  function ReceiveAndDispatch(m: M.Manager, t: Task, now: int): (r: Turn)
    requires M.Valid(m) && AwaitingAnswer(t) && NodeConnection.CanReceive(t.link)
    ensures r.task.link == t.link.(lastResponse := None) && r.task.claimed == None
    ensures var saved := M.SaveBlock(m, t.fileName, t.link.lastResponse.value, M.LinkKey(t.link), now);
      r.manager == saved.manager && (r.task.status.Running? <==> saved.outcome.Done?)
    ensures M.Valid(r.manager)
  {
    var received := NodeConnection.ReceiveResponse(t.link);
    Dispatch(m, t.(link := received.link), BlockAnswer(received.response), now)
  }

  /** A response that is not a block answer costs nothing: the claimed block
      is back in the queue, behind the others, and the queue holds the same
      blocks as before the claim. */
  lemma OtherResponseRequeues(m: M.Manager, t: Task, writeFails: bool, response: Message, now: int)
    requires M.Valid(m) && CanRequest(m, t) && !response.BlockAnswer?
    requires RequestNext(m, t, writeFails).task.status.Running?
    requires m.pending[t.fileName][0].fileName == t.fileName
    ensures var r1 := RequestNext(m, t, writeFails);
      var r2 := Dispatch(r1.manager, r1.task, response, now);
      && r2.task.status.Running? && r2.task.claimed == None
      && r2.manager == m.(pending := m.pending[t.fileName := m.pending[t.fileName][1..] + [m.pending[t.fileName][0]]])
      && multiset(r2.manager.pending[t.fileName]) == multiset(m.pending[t.fileName])
  {
    M.ClaimThenRequeueRotates(m, t.fileName);
  }

  /** A failed request loses its block: the task dies, and the block is in
      neither the queue nor the task. If it was the queue's last block and
      the download is incomplete, `getNextBlock` is disabled for the file
      right after: the other tasks wait until another task still holding a
      block requeues one, or the manager shuts down. */
  lemma FailedSendDropsBlock(m: M.Manager, t: Task)
    requires M.Valid(m) && CanRequest(m, t)
    requires !M.IsDownloadComplete(m, t.fileName) && t.fileName in m.pending
    requires t.link.closed
    ensures var r := RequestNext(m, t, false);
      && r.task.status == Died(IOException)
      && multiset(r.manager.pending[t.fileName]) + multiset{m.pending[t.fileName][0]} == multiset(m.pending[t.fileName])
      && (|m.pending[t.fileName]| == 1 ==> !M.CanGetNextBlock(r.manager, t.fileName))
  {
    var q := m.pending[t.fileName];
    assert q == [q[0]] + q[1..];
  }

  /** A lone task downloading `original` from an honest peer has fetched
      the first `k` blocks of the plan: they are in place, and the queue
      holds the rest of the plan in order. */
  ghost predicate SoloAt(m: M.Manager, f: string, original: seq<byte>, k: nat) {
    && k <= BlockPlan.TotalBlocks(|original|)
    && M.Tracking(m, f, original, M.Range(k))
    && f in m.pending
    && m.pending[f] == BlockPlan.Plan(f, |original|)[k..]
  }

  /** `startDownload` puts a lone task at block 0. */
  lemma SoloStart(m: M.Manager, file: FileSearchResult, sources: seq<NodeConnection.Link>, now: int, original: seq<byte>)
    requires M.Valid(m) && file.fileSize == |original| <= INT_MAX
    ensures SoloAt(M.StartDownload(m, file, sources, now), file.fileName, original, 0)
  {
    M.StartTracks(m, file, sources, now, original);
    assert M.Range(0) == {};
  }

  /** One round of a lone task over an open link: it requests the next
      planned block, the peer's answer lands in the link's mailbox through
      `handleMessage`, and the task saves it; the task is then one block
      further, still running, with an empty mailbox. */
  lemma SoloRound(m: M.Manager, t: Task, original: seq<byte>, k: nat, now: int)
    requires SoloAt(m, t.fileName, original, k) && k < BlockPlan.TotalBlocks(|original|)
    requires t.status.Running? && t.claimed.None? && !t.link.closed && t.link.lastResponse.None?
    ensures CanRequest(m, t)
    ensures var r1 := RequestNext(m, t, false);
      && r1.task.status.Running? && r1.task.claimed == Some(BlockPlan.BlockAt(t.fileName, |original|, k))
      && var h := NodeConnection.HandleMessage(r1.task.link, BlockAnswer(M.AnswerTo(original, t.fileName, k)), [], false);
         && NodeConnection.CanReceive(h.link)
         && var r2 := ReceiveAndDispatch(r1.manager, r1.task.(link := h.link), now);
            && SoloAt(r2.manager, t.fileName, original, k + 1)
            && r2.task.status.Running? && r2.task.claimed.None?
            && !r2.task.link.closed && r2.task.link.lastResponse.None?
  {
    var f := t.fileName;
    var n := |original|;
    var plan := BlockPlan.Plan(f, n);
    assert m.pending[f][0] == plan[k];
    var r1 := RequestNext(m, t, false);
    assert r1.manager.pending[f] == plan[k + 1..];
    var answer := M.AnswerTo(original, f, k);
    var h := NodeConnection.HandleMessage(r1.task.link, BlockAnswer(answer), [], false);
    NodeConnection.AnswerThenReceive(r1.task.link, answer, [], false);
    assert M.Tracking(r1.manager, f, original, M.Range(k));
    M.SaveServedBlock(r1.manager, f, original, M.Range(k), k, M.LinkKey(h.link), now);
    assert M.Range(k) + {k} == M.Range(k + 1);
  }

  /** Once every block is in, the lone task's next turn finishes it, and
      the buffer holds the original file. */
  lemma SoloFinish(m: M.Manager, t: Task, original: seq<byte>, writeFails: bool)
    requires SoloAt(m, t.fileName, original, BlockPlan.TotalBlocks(|original|))
    requires t.status.Running? && t.claimed.None?
    ensures CanRequest(m, t) && RequestNext(m, t, writeFails).task.status.Finished?
    ensures m.fileData[t.fileName] == original
  {
    M.CompleteIffAllSaved(m, t.fileName, original, M.Range(BlockPlan.TotalBlocks(|original|)));
  }
}
