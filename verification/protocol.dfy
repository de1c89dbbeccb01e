/** The wire messages the peers exchange and the two protocol value types
    with their own validation and equality: `NewConnectionRequest` and
    `FileSearchResult`. Getters and record accessors of the Java classes are
    the datatypes' fields. */
module Protocol {
  import opened Common
  import JavaText

  /** `WordSearchMessage`: a keyword search and the node it came from. */
  datatype WordSearchMessage = WordSearchMessage(keyword: string, sourceAddress: string, sourcePort: int)

  /** `FileSearchResult`: one file offered by one node. */
  datatype FileSearchResult = FileSearchResult(
    searchMessage: WordSearchMessage,
    fileName: string,
    fileSize: int,
    nodeAddress: string,
    nodePort: int)

  /** `FileBlockRequestMessage`: the byte range `[offset, offset + length)`
      of the file called `fileName`. */
  datatype FileBlockRequestMessage = FileBlockRequestMessage(fileName: string, offset: int, length: int)

  /** `FileBlockAnswerMessage`: the bytes found at `offset`. */
  datatype FileBlockAnswerMessage = FileBlockAnswerMessage(data: seq<byte>, offset: int)

  /** `NewConnectionRequest`: the connecting node's address and listening
      port, stamped with the creation time. */
  datatype NewConnectionRequest = NewConnectionRequest(address: string, port: int, timestamp: int)

  /** Everything a peer link can read from its object stream. A `List` is a
      batch of search results; any other object is `Unrecognized`. */
  datatype Message =
    | ConnectRequest(request: NewConnectionRequest)
    | Search(search: WordSearchMessage)
    | BlockRequest(blockRequest: FileBlockRequestMessage)
    | BlockAnswer(answer: FileBlockAnswerMessage)
    | SearchResults(results: seq<FileSearchResult>)
    | Unrecognized

  const MIN_PORT: int := 1
  const MAX_PORT: int := 65535

  /** The `NewConnectionRequest` constructor: a missing (`null`) or blank
      address, or a port outside 1..65535, throws
      `IllegalArgumentException`; otherwise the fields are the arguments and
      the timestamp is the clock reading `now`. */
  function NewConnectionRequestOf(address: Option<string>, port: int, now: int): (r: Result<NewConnectionRequest>)
    ensures r.Ok? <==> address.Some? && !JavaText.IsBlank(address.value) && MIN_PORT <= port <= MAX_PORT
    ensures r.Ok? ==> r.value.address == address.value && r.value.port == port && r.value.timestamp == now
    ensures r.Err? ==> r.error == IllegalArgumentException
  {
    if address.None? then Err(IllegalArgumentException)
    else
      JavaText.TrimEmptyIffBlank(address.value);
      if JavaText.Trim(address.value) == [] then Err(IllegalArgumentException)
      else if port < MIN_PORT || port > MAX_PORT then Err(IllegalArgumentException)
      else Ok(NewConnectionRequest(address.value, port, now))
  }

  /** `isValid(timeoutMillis)` read at clock time `now`: the request is
      younger than the timeout. */
  predicate IsValid(r: NewConnectionRequest, timeoutMillis: int, now: int) {
    now - r.timestamp < timeoutMillis
  }

  /** A request that is still valid was valid at every earlier moment. */
  lemma IsValidEarlier(r: NewConnectionRequest, timeoutMillis: int, earlier: int, later: int)
    requires earlier <= later && IsValid(r, timeoutMillis, later)
    ensures IsValid(r, timeoutMillis, earlier)
  {
  }

  /** `NewConnectionRequest.equals`: same port and same address. */
  predicate RequestEquals(a: NewConnectionRequest, b: NewConnectionRequest) {
    a.port == b.port && a.address == b.address
  }

  /** `NewConnectionRequest.hashCode`: `address.hashCode() ^ port`. */
  function RequestHashCode(r: NewConnectionRequest): bv32 {
    JavaText.HashCode(r.address) ^ Bits32(r.port)
  }

  /** Equality ignores the timestamp and nothing else: two requests are
      equal exactly when they agree once their timestamps are erased. */
  lemma RequestEqualsIgnoresTimestamp(a: NewConnectionRequest, b: NewConnectionRequest)
    ensures RequestEquals(a, b) <==> a.(timestamp := 0) == b.(timestamp := 0)
  {
  }

  /** `equals` is an equivalence relation and agrees with `hashCode`. */
  lemma RequestEqualsContract(a: NewConnectionRequest, b: NewConnectionRequest, c: NewConnectionRequest)
    ensures RequestEquals(a, a)
    ensures RequestEquals(a, b) ==> RequestEquals(b, a)
    ensures RequestEquals(a, b) && RequestEquals(b, c) ==> RequestEquals(a, c)
    ensures RequestEquals(a, b) ==> RequestHashCode(a) == RequestHashCode(b)
  {
  }

  /** `FileSearchResult.equals`: same file name, node address and node
      port; the size and the originating search are not compared. */
  predicate ResultEquals(a: FileSearchResult, b: FileSearchResult) {
    a.fileName == b.fileName && a.nodeAddress == b.nodeAddress && a.nodePort == b.nodePort
  }

  /** `FileSearchResult.hashCode`:
      `fileName.hashCode() ^ nodeAddress.hashCode() ^ nodePort`. */
  function ResultHashCode(r: FileSearchResult): bv32 {
    JavaText.HashCode(r.fileName) ^ JavaText.HashCode(r.nodeAddress) ^ Bits32(r.nodePort)
  }

  /** Equality ignores exactly the size and the originating search. */
  lemma ResultEqualsIgnoresSizeAndSearch(a: FileSearchResult, b: FileSearchResult)
    ensures ResultEquals(a, b) <==>
      a.(fileSize := 0, searchMessage := b.searchMessage) == b.(fileSize := 0)
  {
  }

  /** `equals` is an equivalence relation and agrees with `hashCode`. */
  lemma ResultEqualsContract(a: FileSearchResult, b: FileSearchResult, c: FileSearchResult)
    ensures ResultEquals(a, a)
    ensures ResultEquals(a, b) ==> ResultEquals(b, a)
    ensures ResultEquals(a, b) && ResultEquals(b, c) ==> ResultEquals(a, c)
    ensures ResultEquals(a, b) ==> ResultHashCode(a) == ResultHashCode(b)
  {
  }
}
