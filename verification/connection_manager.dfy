/** `network.ConnectionManager`: the node's list of peer links. Socket
    creation, the accept loop and the listening socket are outside the
    model; what a failing socket or write would do is given as an oracle. */
module ConnectionManager {
  import opened Common
  import opened Protocol
  import opened NodeConnection
  import SearchCollector
  import SyncLatch

  /** `port` is this node's own listening port. */
  datatype Registry = Registry(port: int, connections: seq<Link>, running: bool)

  /** How `connectToNode` ended: the link was added; an `IOException` was
      caught and shown to the user; or an exception escaped. */
  datatype ConnectOutcome = Connected | ConnectFailed | Uncaught(error: Error)

  datatype Connect = Connect(registry: Registry, outcome: ConnectOutcome)

  /** The ports a `java.net.Socket` accepts; 0 included. */
  predicate SocketPortOk(port: int) {
    0 <= port <= MAX_PORT
  }

  /** `connectToNode(address, port)`. `openFails` says whether opening the
      socket or its streams, or finding the local address, throws
      `IOException`; `resolvedAddress` is the socket's remote IP;
      `localAddress` this host's address; `writeFails` whether sending the
      handshake fails; `now` the clock. Two `IllegalArgumentException`s
      escape uncaught: the `Socket` constructor's, for a remote port outside
      0..65535 (checked before any connection attempt), and the handshake
      request's, for a blank local address or an invalid own port. */
  function ConnectToNode(reg: Registry, id: LinkId, address: string, port: int, resolvedAddress: string,
                         localAddress: string, now: int, openFails: bool, writeFails: bool): (r: Connect)
    ensures r.outcome.Connected? ==>
      && |r.registry.connections| == |reg.connections| + 1
      && r.registry.connections[..|reg.connections|] == reg.connections
      && var l := r.registry.connections[|reg.connections|];
      && l.id == id && l.remoteAddress == resolvedAddress && l.remotePort == port
      && l.remoteListeningPort == -1 && !l.closed
      && l.sent == [ConnectRequest(NewConnectionRequest(localAddress, reg.port, now))]
    ensures !r.outcome.Connected? ==> r.registry == reg
    ensures r.outcome.Connected? <==>
      && SocketPortOk(port) && !openFails && !writeFails
      && !JavaText.IsBlank(localAddress) && MIN_PORT <= reg.port <= MAX_PORT
    ensures r.outcome.Uncaught? <==>
      || !SocketPortOk(port)
      || (!openFails && (JavaText.IsBlank(localAddress) || !(MIN_PORT <= reg.port <= MAX_PORT)))
    ensures r.outcome.Uncaught? ==> r.outcome.error == IllegalArgumentException
  {
    if !SocketPortOk(port) then Connect(reg, Uncaught(IllegalArgumentException))
    else if openFails then Connect(reg, ConnectFailed)
    else
      var link := Opened(id, resolvedAddress, port);
      var request := NewConnectionRequestOf(Some(localAddress), reg.port, now);
      if request.Err? then Connect(reg, Uncaught(request.error))
      else
        var s := Send(link, ConnectRequest(request.value), writeFails);
        if s.outcome.Threw? then Connect(reg, ConnectFailed)
        else Connect(reg.(connections := reg.connections + [s.state]), Connected)
  }

  /** One round of the accept loop: while the server runs, the socket
      accepted from `remoteAddress:remotePort` becomes a new link at the
      tail of the list; after shutdown the loop has ended and the list is
      left alone. */
  function AcceptConnection(reg: Registry, id: LinkId, remoteAddress: string, remotePort: int): (r: Registry)
    ensures !reg.running ==> r == reg
    ensures reg.running ==>
      && |r.connections| == |reg.connections| + 1
      && r.connections[..|reg.connections|] == reg.connections
      && var l := r.connections[|reg.connections|];
      && l.id == id && l.remoteAddress == remoteAddress && l.remotePort == remotePort
      && l.remoteListeningPort == -1 && !l.closed && l.sent == []
    ensures r.port == reg.port && r.running == reg.running
  {
    if !reg.running then reg else reg.(connections := reg.connections + [Opened(id, remoteAddress, remotePort)])
  }

  /** No de-duplication: connecting twice to the same peer leaves two links
      to it. */
  lemma ConnectTwiceGivesTwoLinks(reg: Registry, id1: LinkId, id2: LinkId, address: string, port: int,
                                  resolved: string, local: string, now: int)
    requires SocketPortOk(port) && !JavaText.IsBlank(local) && MIN_PORT <= reg.port <= MAX_PORT
    ensures var r1 := ConnectToNode(reg, id1, address, port, resolved, local, now, false, false);
      var r2 := ConnectToNode(r1.registry, id2, address, port, resolved, local, now, false, false);
      var n := |reg.connections|;
      && r2.outcome.Connected?
      && |r2.registry.connections| == n + 2
      && r2.registry.connections[n].remoteAddress == r2.registry.connections[n + 1].remoteAddress
      && r2.registry.connections[n].remotePort == r2.registry.connections[n + 1].remotePort
  {
  }

  /** The test `getConnectionsForNode` applies: the remote IP and the
      peer's advertised listening port, not the socket's port. */
  predicate Matches(l: Link, address: string, port: int) {
    l.remoteAddress == address && l.remoteListeningPort == port
  }

  /** Link `i` is the first one in list order that matches. */
  predicate FirstMatch(reg: Registry, address: string, port: int, i: int) {
    && 0 <= i < |reg.connections|
    && Matches(reg.connections[i], address, port)
    && forall j :: 0 <= j < i ==> !Matches(reg.connections[j], address, port)
  }

  /** `getConnectionsForNode(address, port)`: the loop stops at the first
      match, so the result holds at most one link, the first matching one
      in list order, and is empty exactly when nothing matches. */
  method GetConnectionsForNode(reg: Registry, address: string, port: int) returns (result: seq<Link>)
    ensures |result| <= 1
    ensures |result| == 0 <==> forall i :: 0 <= i < |reg.connections| ==> !Matches(reg.connections[i], address, port)
    ensures |result| == 1 ==> exists i :: FirstMatch(reg, address, port, i) && result[0] == reg.connections[i]
  {
    result := [];
    var i := 0;
    while i < |reg.connections|
      invariant 0 <= i <= |reg.connections|
      invariant result == []
      invariant forall j :: 0 <= j < i ==> !Matches(reg.connections[j], address, port)
    {
      var conn := reg.connections[i];
      if conn.remoteAddress == address && conn.remoteListeningPort == port {
        result := result + [conn];
        break;
      }
      i := i + 1;
    }
  }

  /** The link after `broadcastSearch` registered the collector on it and
      wrote the search to it. */
  function Delivered(l: Link, search: WordSearchMessage, collector: Option<CollectorId>): Link {
    (if collector.Some? then SetSearchResultsCollector(l, collector) else l).(sent := l.sent + [Search(search)])
  }

  /** Whether writing the search to `l` throws. */
  predicate SendFails(l: Link, writeFails: bool) {
    l.closed || writeFails
  }

  /** The result of `broadcastSearch`: the registry, how many sends failed
      and how many empty result lists the collector was credited with. */
  datatype Broadcast = Broadcast(registry: Registry, failures: nat, credits: nat)

  /** `broadcastSearch(search, collector)`. `writeFails[i]` says whether
      the write to the i-th link fails. Each link gets the collector
      registered before the send; a failed send drops the link from the list
      (without closing it) and credits the collector with one empty list. */
  method BroadcastSearch(reg: Registry, search: WordSearchMessage, collector: Option<CollectorId>,
                         writeFails: seq<bool>) returns (r: Broadcast, ghost origin: seq<nat>)
    requires |writeFails| == |reg.connections|
    ensures r.registry == reg.(connections := r.registry.connections)
    ensures |r.registry.connections| + r.failures == |reg.connections|
    ensures r.credits == if collector.Some? then r.failures else 0
    // the survivors, in list order, are exactly the links whose send
    // worked, each with the collector registered and the search written
    ensures |origin| == |r.registry.connections|
    ensures forall j :: 0 <= j < |origin| ==> origin[j] < |reg.connections|
    ensures forall j, k :: 0 <= j < k < |origin| ==> origin[j] < origin[k]
    ensures forall j :: 0 <= j < |origin| ==>
      && !SendFails(reg.connections[origin[j]], writeFails[origin[j]])
      && r.registry.connections[j] == Delivered(reg.connections[origin[j]], search, collector)
    ensures forall i :: 0 <= i < |reg.connections| && !SendFails(reg.connections[i], writeFails[i]) ==> i in origin
  {
    var kept: seq<Link> := [];
    origin := [];
    var failures := 0;
    var i := 0;
    while i < |reg.connections|
      invariant 0 <= i <= |reg.connections|
      invariant |kept| == |origin| && |kept| + failures == i
      invariant forall j :: 0 <= j < |origin| ==> origin[j] < i
      invariant forall j, k :: 0 <= j < k < |origin| ==> origin[j] < origin[k]
      invariant forall j :: 0 <= j < |origin| ==>
        && !SendFails(reg.connections[origin[j]], writeFails[origin[j]])
        && kept[j] == Delivered(reg.connections[origin[j]], search, collector)
      invariant forall k :: 0 <= k < i && !SendFails(reg.connections[k], writeFails[k]) ==> k in origin
    {
      var link := reg.connections[i];
      if collector.Some? {
        link := SetSearchResultsCollector(link, collector);
      }
      var s := Send(link, Search(search), writeFails[i]);
      if s.outcome.Threw? {
        failures := failures + 1;
      } else {
        kept := kept + [s.state];
        origin := origin + [i];
      }
      i := i + 1;
    }
    r := Broadcast(reg.(connections := kept), failures, if collector.Some? then failures else 0);
  }

  /** `getActiveConnectionsCount()` */
  function ActiveConnectionsCount(reg: Registry): nat {
    |reg.connections|
  }

  /** `shutdown()`: the list is emptied and the server stops. Java also
      closes each link first; the model only drops the registry's links,
      because other holders keep their own copies of them. */
  function Shutdown(reg: Registry): (r: Registry)
    ensures r.connections == [] && !r.running && r.port == reg.port
  {
    reg.(connections := [], running := false)
  }

  /** The connection count follows the list: across one `connectToNode`
      call one more exactly when it succeeds, one more per link accepted
      while running, none after shutdown. */
  lemma ActiveCountTracks(reg: Registry, id: LinkId, address: string, port: int, resolved: string,
                          local: string, now: int, openFails: bool, writeFails: bool)
    ensures var c := ConnectToNode(reg, id, address, port, resolved, local, now, openFails, writeFails);
      ActiveConnectionsCount(c.registry) == ActiveConnectionsCount(reg) + (if c.outcome.Connected? then 1 else 0)
    ensures ActiveConnectionsCount(AcceptConnection(reg, id, resolved, port))
      == ActiveConnectionsCount(reg) + (if reg.running then 1 else 0)
    ensures ActiveConnectionsCount(Shutdown(reg)) == 0
  {
  }

  /** The search protocol's liveness (as `searchFiles` drives it): a
      collector gated on the `n` links present at broadcast time opens once
      each of the `failures` failed sends has been credited with an empty
      list and each of the other peers has answered; it then holds the local
      results followed by the answers, the credits adding nothing. */
  lemma SearchGateOpens(local: seq<FileSearchResult>, n: nat, failures: nat, replies: seq<seq<FileSearchResult>>)
    requires failures <= n && |replies| == n - failures
    ensures var c := SearchCollector.AddAll(SearchCollector.New(SyncLatch.Latch(n), local),
                                            SearchCollector.Empties(failures) + replies);
      SyncLatch.CanAwait(c.latch) && c.results == local + SearchCollector.Flatten(replies)
  {
    var empties := SearchCollector.Empties(failures);
    var batches := empties + replies;
    assert |batches| == n;
    SearchCollector.GateOpensAfterEveryPeer(local, batches);
    SearchCollector.FlattenAppend(empties, replies);
    SearchCollector.FlattenEmpties(failures);
    assert SearchCollector.Flatten(batches) == SearchCollector.Flatten(replies);
  }
}
