/**
 * From the file on one side to the body on the other: the chunked sender, any sockets between, and the parser.
 */
module HttpRoundTrip {
  import opened HttpParserTypes
  import opened HttpParserExecute
  import opened HttpFraming
  import opened HttpDelivery
  import opened HttpBodyFiles
  import opened RingBuffers

  /** The bytes s as segments of the given sizes, the last one taking what is left. */
  function Cut(s: seq<char>, sizes: seq<nat>): (segments: seq<seq<char>>)
    ensures Concat(segments) == s && forall i :: 0 <= i < |segments| ==> segments[i] != []
    decreases |sizes|
  {
    if s == [] then []
    else if sizes == [] || sizes[0] == 0 || |s| <= sizes[0] then
      assert [s][1..] == [];
      [s]
    else
      var rest := Cut(s[sizes[0]..], sizes[1..]);
      assert ([s[..sizes[0]]] + rest)[1..] == rest;
      [s[..sizes[0]]] + rest
  }

  /**
   * Sends a non-empty file in the chunked coding, through any schedule of partial sends and suspended calls, and hands
   * what was sent to the parser in any segments: when the transfer is done, the body received is the file, and the
   * message has been completed exactly once. It is done when the socket takes something often enough, and is called
   * once more than it recalls.
   */
  method Relay(body: HttpBodyFile, sock: Socket, calls: nat, parser: HttpParser, sizes: seq<nat>)
    returns (status: SendStatus)
    requires body.Ready() && body.file.content != [] && body.chunkState.ChunkInit? && body.file.pos == 0 &&
             sock.sent == []
    requires body.RingLength() == HTTP_FILE_CACHE_SIZE
    requires parser.Valid() && parser.errno.Ok? && parser.state.ChunkSizeStart? && !parser.upgrade
    requires AreSegments(Cut(Wire(body.file.content, HTTP_FILE_CACHE_SIZE), sizes))
    modifies body, body.file, body.ringbuf, body.ringbuf.buffer, sock, parser
    ensures Suffices(old(sock.schedule), |Wire(old(body.file.content), HTTP_FILE_CACHE_SIZE)|, calls) ==> status.Done?
    ensures status.Done? ==>
              parser.errno.Ok? && old(parser.log) <= parser.log &&
              BodyBytes(parser.log[|old(parser.log)|..]) == old(body.file.content) &&
              Completions(parser.log[|old(parser.log)|..]) == 1
  {
    hide Wire, Pieces;
    ghost var file := body.file.content;
    status := Transfer(body, sock, calls);
    if status.Done? {
      ghost var pieces := Pieces(file, HTTP_FILE_CACHE_SIZE);
      PiecesConcat(file, HTTP_FILE_CACHE_SIZE);
      WireIsChunked(file, HTTP_FILE_CACHE_SIZE);
      PlainCoded(pieces);
      PlainShort(pieces);
      DeliverChunked(parser, Cut(sock.sent, sizes), Plains(pieces), LAST);
    }
  }
}
