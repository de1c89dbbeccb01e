/** `network.NodeConnection`: one peer link. The socket is reduced to a
    `closed` flag and the sequence of messages written to its output
    stream; the object identity of the Java object is `id`. Inbound
    messages are dispatched by `HandleMessage`, whose calls into other
    components come back as `Effect`s. */
module NodeConnection {
  import opened Common
  import opened Protocol

  type LinkId = nat
  /** Names one `SearchResultsCollector` object. */
  type CollectorId = nat

  datatype Link = Link(
    id: LinkId,
    remoteAddress: string,
    remotePort: int,
    remoteListeningPort: int,
    lastResponse: Option<FileBlockAnswerMessage>,
    collector: Option<CollectorId>,
    closed: bool,
    sent: seq<Message>)

  /** A link over a freshly opened socket to `remoteAddress:remotePort`:
      the peer's listening port is still unknown (-1), the mailbox is empty
      and no collector is registered. */
  function Opened(id: LinkId, remoteAddress: string, remotePort: int): (l: Link)
    ensures l.remoteListeningPort == -1 && l.lastResponse == None && l.collector == None
    ensures !l.closed && l.sent == []
    ensures l.id == id && l.remoteAddress == remoteAddress && l.remotePort == remotePort
  {
    Link(id, remoteAddress, remotePort, -1, None, None, false, [])
  }

  /** `sendMessage(m)`: on a closed socket it throws `IOException` and
      writes nothing; a write that fails (`writeFails`) throws too;
      otherwise `m` is appended to the stream. Nothing else changes. */
  function Send(l: Link, m: Message, writeFails: bool): (r: Step<Link>)
    ensures r.outcome.Threw? <==> l.closed || writeFails
    ensures r.outcome.Threw? ==> r.outcome.error == IOException && r.state == l
    ensures r.outcome.Done? ==> r.state == l.(sent := l.sent + [m])
  {
    if l.closed || writeFails then Step(l, Threw(IOException)) else Step(l.(sent := l.sent + [m]), Done)
  }

  /** The socket side of `close()`. */
  function Close(l: Link): (r: Link)
    ensures r.closed && r == l.(closed := true)
  {
    l.(closed := true)
  }

  /** `setSearchResultsCollector(c)`: replaces any earlier registration. */
  function SetSearchResultsCollector(l: Link, c: Option<CollectorId>): (r: Link)
    ensures r.collector == c && r.(collector := l.collector) == l
  {
    l.(collector := c)
  }

  /** `receiveResponse()` may return: the mailbox holds an answer. */
  predicate CanReceive(l: Link) {
    l.lastResponse.Some?
  }

  datatype Received = Received(link: Link, response: FileBlockAnswerMessage)

  /** `receiveResponse()`: takes the answer out of the mailbox. */
  function ReceiveResponse(l: Link): (r: Received)
    requires CanReceive(l)
    ensures r.response == l.lastResponse.value
    ensures r.link == l.(lastResponse := None)
  {
    Received(l.(lastResponse := None), l.lastResponse.value)
  }

  /** The calls `handleMessage` makes into other components. */
  datatype Effect =
    | ReturnConnection(address: string, port: int)
    | EnqueueBlockRequest(request: FileBlockRequestMessage, connection: LinkId)
    | ToCollector(collector: CollectorId, results: seq<FileSearchResult>)
    | ToGui(results: seq<FileSearchResult>)

  datatype Handled = Handled(link: Link, effects: seq<Effect>, outcome: Outcome)

  /** `handleMessage(m)`. `localResults` is what the local file search
      returns for a search request, and `writeFails` whether writing the
      reply fails. */
  function HandleMessage(l: Link, m: Message, localResults: seq<FileSearchResult>, writeFails: bool): (r: Handled)
    // Identity, addresses and the socket are never touched by dispatch.
    ensures r.link.id == l.id && r.link.remoteAddress == l.remoteAddress
    ensures r.link.remotePort == l.remotePort && r.link.closed == l.closed
    // A connection request records the peer's listening port and asks for
    // a connection back to it.
    ensures m.ConnectRequest? ==>
      && r.link == l.(remoteListeningPort := m.request.port)
      && r.effects == [ReturnConnection(l.remoteAddress, m.request.port)]
    // A search is answered on this link with the local results.
    ensures m.Search? ==>
      && r.effects == []
      && r == Handled(Send(l, SearchResults(localResults), writeFails).state, [],
                      Send(l, SearchResults(localResults), writeFails).outcome)
    // A block request is queued with this connection, not answered here.
    ensures m.BlockRequest? ==> r == Handled(l, [EnqueueBlockRequest(m.blockRequest, l.id)], Done)
    // A block answer fills the mailbox, overwriting any undrained answer.
    ensures m.BlockAnswer? ==> r == Handled(l.(lastResponse := Some(m.answer)), [], Done)
    // A result list goes to the registered collector, which is then
    // cleared; with none registered it goes to the GUI.
    ensures m.SearchResults? && l.collector.Some? ==>
      r == Handled(l.(collector := None), [ToCollector(l.collector.value, m.results)], Done)
    ensures m.SearchResults? && l.collector.None? ==> r == Handled(l, [ToGui(m.results)], Done)
    ensures m.Unrecognized? ==> r == Handled(l, [], Done)
  {
    match m
    case ConnectRequest(request) =>
      Handled(l.(remoteListeningPort := request.port), [ReturnConnection(l.remoteAddress, request.port)], Done)
    case Search(_) =>
      var s := Send(l, SearchResults(localResults), writeFails);
      Handled(s.state, [], s.outcome)
    case BlockRequest(request) =>
      Handled(l, [EnqueueBlockRequest(request, l.id)], Done)
    case BlockAnswer(answer) =>
      Handled(l.(lastResponse := Some(answer)), [], Done)
    case SearchResults(results) =>
      if l.collector.Some? then Handled(l.(collector := None), [ToCollector(l.collector.value, results)], Done)
      else Handled(l, [ToGui(results)], Done)
    case Unrecognized =>
      Handled(l, [], Done)
  }

  /** Mailbox round trip: an answer delivered on a link is what the next
      `receiveResponse` returns, and the mailbox is empty afterwards. */
  lemma AnswerThenReceive(l: Link, a: FileBlockAnswerMessage, local: seq<FileSearchResult>, writeFails: bool)
    ensures var h := HandleMessage(l, BlockAnswer(a), local, writeFails);
      && CanReceive(h.link)
      && ReceiveResponse(h.link).response == a
      && ReceiveResponse(h.link).link.lastResponse == None
  {
  }

  /** The single slot is overwritten without error: of two answers that
      arrive before the mailbox is drained, only the second is received. */
  lemma UndrainedAnswerIsOverwritten(l: Link, a1: FileBlockAnswerMessage, a2: FileBlockAnswerMessage,
                                     local: seq<FileSearchResult>, writeFails: bool)
    ensures var h1 := HandleMessage(l, BlockAnswer(a1), local, writeFails);
      var h2 := HandleMessage(h1.link, BlockAnswer(a2), local, writeFails);
      && h1.outcome.Done? && h2.outcome.Done?
      && ReceiveResponse(h2.link).response == a2
  {
  }

  /** A collector registration is one-shot: with collector `c` registered,
      the first result list goes to `c` and the next to the GUI. */
  lemma CollectorIsOneShot(l: Link, c: CollectorId, rs1: seq<FileSearchResult>, rs2: seq<FileSearchResult>,
                           local: seq<FileSearchResult>, writeFails: bool)
    ensures var h1 := HandleMessage(SetSearchResultsCollector(l, Some(c)), SearchResults(rs1), local, writeFails);
      var h2 := HandleMessage(h1.link, SearchResults(rs2), local, writeFails);
      h1.effects == [ToCollector(c, rs1)] && h2.effects == [ToGui(rs2)]
  {
  }

  /** On a closed link a search request gets no reply: the write throws
      and nothing is appended to the stream. */
  lemma SearchOnClosedLinkThrows(l: Link, s: WordSearchMessage, local: seq<FileSearchResult>, writeFails: bool)
    requires l.closed
    ensures var h := HandleMessage(l, Search(s), local, writeFails);
      h.outcome == Threw(IOException) && h.link.sent == l.sent
  {
  }
}
