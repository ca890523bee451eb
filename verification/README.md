# A verified model of the proxy

This project models the protocol code of the proxy in Dafny and proves properties of it. Check it with
`dafny verify dfyconfig.toml`; no file needs any other. Eight parts are modelled; two of them meet in a round trip.

**The HTTP/1.x push parser** (`http/lib/http_parser.c`, in strict mode, as `http/lib/http_parser.h` sets it).
`HttpParserStep` is the body of the big switch as a function of one byte. `HttpParserFeed` folds it over a stream, byte by
byte, without blocks, marks or counters: that is the reference. `HttpParserInvariant` proves the invariant the assertions of
the C code rest on. `HttpParser` is the function itself, a class whose fields are those of `http_parser`, with the data
marks, the two scanning loops, the block copies, the `goto reexecute` and the 32-bit header counter; it refines the
reference. The assertions of the C code stand in it as Dafny assertions. `HttpParserCount` says which streams stay within
the limit of that counter, whatever they are cut into. On top of the reference stand the header names
(`HttpHeaderNames`), two header values (`HttpHeaderValues`), the two numbers that frame a body (`HttpNumbers`), what these
come to for whole header lines (`HttpHeaders`), the choice of the body's framing against section 3.3.3 of RFC 7230
(`HttpHeaderFraming`), whether the connection stays open, against section 6.3 (`HttpPersistence`), the method names
(`HttpMethods`), first lines (`HttpStartLines`), the framing of bodies (`HttpFraming`), the delivery of a stream cut into
any segments (`HttpDelivery`), whole messages, alone and in a row (`HttpMessages`), and the URL splitter (`HttpUrl`), with
the grammar of what it accepts (`HttpUrlGrammar`). What the parser accepts at all is in the grammars of targets
(`HttpTargets`), of request lines and size lines (`HttpLineGrammar`), of status lines (`HttpStatusGrammar`) and of header
lines (`HttpHeaderGrammar`); everything else stops it. The character tables are written out in `HttpChars`.

**The chunked sender** (`http/HttpBodyFile.cpp`, `net/RingBuffer.cpp`, `core/Dechex.cpp`). `RingBuffer` is the ring over its
byte array, `HttpBodyFile` the fall-through machine that is suspended by every partial send, `Dechex` the size of a chunk.
What it emits is the coding that `HttpFraming` decodes: `SentIsReceived` joins the two, and `HttpRoundTrip` runs one
against the other.

**The event loop and the time wheel** (`net/EventsLoop.cpp`, `net/TimeWheelEvent.cpp`). In `EventsLoop` channels live in an
explicit heap whose allocator may give any free address again; every look at a channel is a look-up in that heap, so that
using a freed channel does not verify. Callbacks do anything a callback can do to sockets and channels. `TimeWheel` is the
circular list, whose meaning is a clock with the ticks left to each channel.

**The thread pool** (`thread/ThreadPool.h`, with the mutex and the conditions of `thread/ThreadMutex.h` and
`thread/Condition.h`). `ThreadPool` is a transition system over any interleaving, any choice of the thread a signal wakes,
and waits that return on their own; its class carries out the steps on the pool's fields.

**The proxy's driver** (`http/HttpProxyConnection.cpp`). `HttpProxy` is the loop over its states, with every outcome of
sockets, TLS, resolver and parser, and a trace of what must happen in order.

**Base64** (`http/lib/base64.c`, section 4 of RFC 4648), **DNS names** (`dns/DNSResolver.cpp`, sections 3.1 and 4.1.4 of
RFC 1035) and **the DNS cache** (`dns/DNSCache.cpp`). The cache compares hosts as the code does, by a prefix of an
unterminated buffer, and says for which hosts that is right.

Where the code differs from what its documentation or the standard says, the model follows the code:

- A Content-Length value may have spaces between its digits; the parser skips them (http/lib/http_parser.c:1566).
- `sendChunk` announces the size it would like to read, not the size read; the two agree with the ring's default length
  (`WireIsRightIff`). On an empty file a suspended terminator is sent again from its start (`EmptyIsRightIff`).
- `resolveRRName` knows a label by its low six bits and computes the offset of a pointer as `high + low`
  (dns/DNSResolver.cpp:473-489): `ReadPacked` and `AgreesIffLow` say exactly when that is right.
- The jump over a general header value looks at the first byte of a run only (http/lib/http_parser.c:1529-1558), so that
  a byte which the header may not hold slips through behind it: `ExecuteSegment` is right if and only if none does.
- An option of a Connection header that is the beginning of one looked for hides the next (`OptionHidden`), and one
  that is blank or begins with a separator, if it is not the first, hides all that follow it. `OptionsRecognised` says which
  options are heard, and that the flags are right if and only if none looked for is missed.
- The framing of a body is not always that of section 3.3.3 of RFC 7230. A chunked coding is noticed only where it stands
  alone on a line, with nothing but spaces behind it: a list of codings that ends with it is not (`ListMissed`,
  `GzipChunkedMissed`), nor is one with a tab behind it, and one under another coding is (`ChunkedUnderGzip`). A request
  whose codings do not end with chunked is not refused, nor is a length that is empty or has spaces in it
  (`SpacedLength`). A response with status 1xx, 204 or 304 and a length or a coding has a body unless the application says
  otherwise (`NotModifiedWaits`); one of another status that announces an upgrade, and neither length nor coding, has none.
  `FramingIff` is the exact condition, in terms of the header lines. That a response answers a HEAD, or with success a
  CONNECT, is for the application's verdict to say.
- Whether the connection stays open is not always decided as section 6.3 of RFC 7230 says: close is not looked for in a
  message of version 1.0 that has keep-alive too, a version of 2.0 or later that ends in a zero counts as 1.0, one of 0
  can stay open, a Proxy-Connection line counts as a Connection line, and an option may be missed as above.
  `PersistenceIff` is the exact condition.
- A header is rejected in which a length stands beside a noticed chunked coding, or that has a second length, as the
  standard allows, and in which a tab stands behind a length, which the standard does not.
- The target of a CONNECT is accepted with more than a host and a port (http/lib/http_parser.c:2426-2429), exactly when it
  holds an @ or a question mark: `ConnectIsMeantIff`, `OddTarget`.
- The DNS cache can answer for another host when one of the two begins with the other, whichever is the shorter;
  `RightIffApart` says when.
- A channel put into the wheel by a timeout callback is timed out in the same sweep (`RefreshedInSweep`), which does not
  end as long as callbacks put in more (`SweepGoesOn`).
- The proxy keeps the bytes of a CONNECT request in the server's output buffer; `Drive` shows that they are forwarded with
  the first request, as everything read from the client is.
- When the request is complete, `RWEventHandle` has no case for a server that was never looked up
  (http/HttpProxyConnection.cpp:425-447), one whose socket has been closed, say, while the rest of the request came in.
  The request is dropped without an answer (`DropRequest`).
- The 400 for a malformed request is attached to the client's buffer and never sent: the request still needs more data, so
  the driver goes back to reading, where every further byte fails again (http/HttpProxyConnection.cpp:367-377, 618-622). The
  503 that the resolver's answer attaches is not sent either, since the client has no handler for writing
  (http/HttpProxyConnection.cpp:235-239, net/Acceptor.cpp:98-102). `Unanswered` proves both for any run. The 503 attached
  when the request itself is complete goes out (`AfterParse`, `SendNotice`).
- In a receiving case with nothing read, a complete message would be passed on (http/HttpProxyConnection.cpp:349-355);
  none is ever complete there, as `ReceiveStage` asserts.
- A query that a request asks for while the answer to another one is being handled leaves the resolver's state as that of
  the answer (dns/DNSResolver.cpp:26-38), with the query still under way: `ServerConnectHandle`.
- Converting zero, `dec2hex` gives no digit at all.

## Model

| member | source | states |
|---|---|---|
| `HttpChars.DigitTable` | http/lib/http_parser.c:414 | a byte is a decimal digit of a value exactly when it stands at that place of 0123456789 |
| `HttpChars.HexTable` | http/lib/http_parser.c:224-233 | the unhex table gives a byte a value exactly when it stands at that place of 0123456789abcdef or of 0123456789ABCDEF |
| `HttpChars.LowerTable` | http/lib/http_parser.c:412-413 | the lower case of a byte is a letter exactly when it is one of the two cases of that letter |
| `HttpChars.TokenTable` | http/lib/http_parser.c:188-221 | the token characters are the letters, the digits and the fifteen marks of section 3.2.6 of RFC 7230; digits and marks stand for themselves |
| `HttpChars.TokenLetters` | http/lib/http_parser.c:188-221 | both cases of a letter stand for its lower case |
| `HttpChars.UrlTable` | http/lib/http_parser.c:413-429 | the characters of hosts, of user information, of paths and of numbers, each class written out |
| `HttpChars.HeaderTable` | http/lib/http_parser.c:442-443 | what a header value may hold: visible characters, tab, the bytes above 127 and line ends |
| `HttpParserStep.Dispatch` | http/lib/http_parser.c:702-2058 | the single-byte body of the switch, over all states; a repeated dispatch of the same byte only ever goes down in the rank of the state |
| `HttpParserInvariant.DispatchKeeps` | http/lib/http_parser.c:702-2058 | every dispatch, from every state on every byte, keeps the parser's invariant: which numbers, flags and matcher states a state can have, which data mark it owns, the index into the method name, a chunked flag and a non-zero remaining length in the chunk states; this is what makes the assertions of the C code hold |
| `HttpParserFeed.Segmentation` | http/lib/http_parser.c:636-2092 | feeding a and then b is feeding a + b, for every cut of every byte stream: same state, same callbacks in order, same position, and nothing is looked at after an early return |
| `HttpParserFeed.FeedLastBlock` | http/lib/http_parser.c:1882-1917 | the block copy of an identity body that exhausts the declared length does what its bytes do one by one, and leaves the last byte to be dispatched once more as the end of the message |
| `HttpParserFeed.FeedLastOfChunk` | http/lib/http_parser.c:2015-2036 | the block copy that exhausts a chunk does what its bytes do one by one |
| `HttpParserFeed.FeedUntilEof` | http/lib/http_parser.c:1919-1923 | a body without a length hands over every byte to the end of the segment |
| `HttpParserFeed.FeedGeneralRun` | http/lib/http_parser.c:1535-1558 | the jump over a general header value up to its end does what its bytes do one by one, when all of them may be in a header value |
| `HttpParserFeed.RunSlips` | http/lib/http_parser.c:1529-1558 | and when one of them behind the first may not, the byte-by-byte feed rejects it within the run that the call jumps over |
| `HttpParserFeed.SlipsRejected` | http/lib/http_parser.c:1529-1558 | a feed slips only where it rejects a byte of a header value |
| `HttpParserFeed.SlipsExample` | http/lib/http_parser.c:1529-1558 | a segment that slips: the rest of a header value with a control character behind its first byte |
| `HttpParserInvariant.NoSlip` | http/lib/http_parser.c:1529-1532 | what a caller can see beforehand: in lenient mode, or without a byte that a header value may not hold, no segment slips |
| `HttpParserExecute.PendingStep` | http/lib/http_parser.c:97-133 | one dispatch: what CALLBACK_DATA hands over, what is notified and what is still marked is what was marked before and the byte's own events, in order |
| `HttpParserExecute.TrackDispatch` | http/lib/http_parser.c:702-2058 | one dispatch keeps the outcome of the whole call: what has been called back, what is marked and what feeding the rest gives |
| `HttpParserExecute.HttpParser.DispatchByte` | http/lib/http_parser.c:702-2058 | one pass through the switch keeps the invariant and the outcome; a byte dispatched again goes down in rank; at most the mark of the state's own piece is set |
| `HttpParserExecute.HttpParser.FieldRun` | http/lib/http_parser.c:1298-1425 | the scanning loop over a header name, with its counter and its header-state assertion, refines the byte-by-byte feed |
| `HttpParserExecute.NextLineEnd` | http/lib/http_parser.c:1535-1558 | the two bounded searches for CR and LF find the first of them, unless neither is within the maximal header size |
| `HttpParserExecute.HttpParser.ValueRun` | http/lib/http_parser.c:1506-1695 | the scanning loop over a header value, with its jumps, its counter and its header-state assertion, refines the byte-by-byte feed, or has jumped over a byte that the feed rejects |
| `HttpParserExecute.HttpParser.BodyRun` | http/lib/http_parser.c:1882-1917 | the block copy of an identity body, with its assertion that the remaining length is neither 0 nor ULLONG_MAX |
| `HttpParserExecute.HttpParser.ChunkRun` | http/lib/http_parser.c:2015-2036 | the block copy of a chunk, with its assertions on the chunked flag and the remaining length |
| `HttpParserExecute.HttpParser.DispatchHere` | http/lib/http_parser.c:1934-2052 | the assertions on the chunked flag, the counter and the remaining length hold before the byte of a chunk state is dispatched |
| `HttpParserExecute.HttpParser.Reexecute` | http/lib/http_parser.c:702-2058 | the switch with its goto terminates on every byte, by the rank of the state |
| `HttpParserExecute.HttpParser.Leftovers` | http/lib/http_parser.c:2061-2083 | at the end of a segment at most one mark is set, and it is handed over |
| `HttpParserExecute.HttpParser.ExecuteEof` | http/lib/http_parser.c:654-672 | the end of the stream: completes a body without a length, is fine between messages, and is an error anywhere else |
| `HttpParserExecute.HttpParser.ExecuteSegment` | http/lib/http_parser.c:636-2092 | one call on a segment: terminates, stays inside it, keeps the invariant between calls, and, when no overflow is reported, equals the byte-by-byte feed in fields, callbacks and returned count if and only if that feed does not slip; where it slips, the call goes further than the feed. There is no overflow when the count of header bytes, with one more for every segment that may end inside a header name or value, stays within the limit |
| `HttpParserExecute.HttpParser.CountByte` | http/lib/http_parser.c:704-706 | counting one header byte, which stays within the limit when the byte-by-byte count does |
| `HttpParserExecute.JumpCalm` | http/lib/http_parser.c:1535-1558 | when the count stays within the limit, the jump over a general header value finds its end within the bounded searches, and counts what its bytes count one by one |
| `HttpParserCount.ShortTop` | http/lib/http_parser.c:154-161 | a stream whose length, with its segments, is at most the limit never overflows, whatever its bytes |
| `HttpParserCount.CalmerTop` | http/lib/http_parser.c:154-161 | a count that stays within the limit does so from any smaller start |
| `HttpParserExecute.HttpParser.Execute` | http/lib/http_parser.c:636-2092 | the whole function: nothing after an error, the end of the stream on the empty segment, and otherwise the segment; the returned count is at most the length, and less only for an upgrade when there is no error |
| `HttpHeaderNames.NameRecognised` | http/lib/http_parser.c:1248-1425 | the incremental matcher ends in the state of content-length, transfer-encoding, connection (also for proxy-connection) or upgrade exactly when the lower-cased name is that header; the name is handed over unchanged |
| `HttpHeaderValues.ChunkedRecognised` | http/lib/http_parser.c:1428-1600 | from the first byte of a Transfer-Encoding value on: the chunked flag is set if and only if the value is chunked, in any case, with nothing but spaces behind it; nothing else of the parser changes but the matcher |
| `HttpHeaderValues.OptionsRecognised` | http/lib/http_parser.c:1428-1692 | from the first byte of any Connection value on: the flags set are exactly those of the options the matcher hears; so they are right if and only if every option looked for that the list names is among those heard, or its flag was set before |
| `HttpHeaderValues.OptionHidden` | http/lib/http_parser.c:1620-1662 | u,close names close and sets no flag: the beginning of upgrade swallows its comma, and with it the option behind |
| `HttpNumbers.LengthValue` | http/lib/http_parser.c:1565-1590 | the rest of a Content-Length value, behind its first digit, is accepted exactly when it consists of digits and spaces and every digit passes the guard; then the parser holds the decimal value of the whole, below ULLONG_MAX |
| `HttpNumbers.SizeValue` | http/lib/http_parser.c:1950-1985 | the rest of a chunk size, behind its first digit, is accepted exactly when every digit passes the guard; then the parser holds the hexadecimal value of the whole, below ULLONG_MAX |
| `HttpNumbers.WholeLength` | http/lib/http_parser.c:1466-1590 | a Content-Length value from its first byte on: accepted exactly when there was none before, it begins with a digit, consists of digits and spaces and every digit fits; then the parser holds its value |
| `HttpNumbers.WholeSize` | http/lib/http_parser.c:1934-1985 | a chunk size from its first digit on: accepted exactly when every digit fits; then the parser holds its value, by the tables of either case |
| `HttpNumbers.SameNumber` | http/lib/http_parser.c:224-233 | a number written in either case has the value, and the fate at the guard, of its lower-case digits |
| `HttpNumbers.LengthGuard` | http/lib/http_parser.c:1577-1587 | the overflow guard admits a decimal digit exactly when the number so far is at most 1844674407370955160, and then nothing wraps |
| `HttpNumbers.ChunkGuard` | http/lib/http_parser.c:1968-1980 | the overflow guard admits a hexadecimal digit exactly when nothing can wrap |
| `HttpHeaders.HeaderLine` | http/lib/http_parser.c:1248-1773 | a whole line of name, colon, white space, value, if any, and CRLF or a bare LF: rejected exactly when it is a length that is no 64-bit number or not the first one; otherwise name and value are handed over, and before the next byte is looked at the flags and the length are set that they say, and no other field |
| `HttpHeaders.EmptyLine` | http/lib/http_parser.c:1737-1773 | a line without a value sets nothing |
| `HttpHeaders.FeedHeader` | http/lib/http_parser.c:1248-1880 | any number of lines and the empty one: all of it is handed over, and the parser comes to the end of the headers with the flags and the length the lines say; rejected exactly when a line is, or a length stands beside a noticed chunked coding, or the application's verdict is none |
| `HttpHeaderGrammar.HeaderLineIff` | http/lib/http_parser.c:1248-1773 | a line of the header is accepted if and only if it is a name of token characters, a colon, white space and a value of header characters, perhaps none, with CR only before the LF, and its value is acceptable under its name |
| `HttpHeaderGrammar.LastCrStops` | http/lib/http_parser.c:1775-1778 | the CR of the empty line has to be followed by its LF |
| `HttpHeaderGrammar.EmptyLineFolds` | http/lib/http_parser.c:1737-1749 | a line without a value goes on in the next one, if that begins with white space, as if there were no line end |
| `HttpHeaderFraming.ToldChunked` | http/lib/http_parser.c:1428-1600 | behind all the lines the chunked flag is set exactly when the value of some Transfer-Encoding line is chunked and nothing but spaces |
| `HttpHeaderFraming.ToldLength` | http/lib/http_parser.c:1466-1590 | behind all the lines the length is that of the one Content-Length line with a value, if there is one |
| `HttpHeaderFraming.FramingIff` | http/lib/http_parser.c:1836-1880 | at the end of the headers the body is read in the framing that section 3.3.3 of RFC 7230 takes from the header lines if and only if: the application rules the body out; or it is that of a 1xx, 204 or 304 that has neither a noticed coding nor a length; or the coding that ends the list is chunked and noticed; or it is another one, in a response, with no coding noticed and no length; or there is no coding, and no length or one proper one |
| `HttpHeaderFraming.ListMissed` | http/lib/http_parser.c:1450-1600 | no list of several codings that ends with chunked, on one line, is ever noticed |
| `HttpHeaderFraming.LastLineChunked` | http/lib/http_parser.c:1450-1600 | chunked alone on the last Transfer-Encoding line is the final coding, and is noticed |
| `HttpHeaderFraming.GzipChunkedMissed` | http/lib/http_parser.c:1836-1880 | a request with Transfer-Encoding: gzip, chunked is complete at the end of its headers, where the standard says that its body is chunked |
| `HttpHeaderFraming.ChunkedUnderGzip` | http/lib/http_parser.c:1836-1880 | a response with the codings chunked and then gzip, on two lines, is read as chunked, where the standard says that it lasts until the close |
| `HttpHeaderFraming.SpacedLength` | http/lib/http_parser.c:1565-1590 | a length 4 2 is read as 42, where the standard says that the message is to be refused |
| `HttpHeaderFraming.NotModifiedWaits` | http/lib/http_parser.c:1852-1864 | a 304 with a length: the standard says no body, the parser waits for that many bytes |
| `HttpHeaderFraming.LeavesAtOnce` | http/lib/http_parser.c:1843-1850 | when another protocol begins, the message is complete and the call ends |
| `HttpHeaderFraming.HeaderChooses` | http/lib/http_parser.c:1248-1880 | from the first byte of any header to its last: accepted and handed over under the conditions above, and then the body is read in the framing that the standard takes from the lines if and only if they are rightly framed |
| `HttpPersistence.ToldOptions` | http/lib/http_parser.c:1428-1692 | behind all the lines the flags for close and keep-alive are set exactly when a Connection or Proxy-Connection line says the option where the matcher hears it |
| `HttpPersistence.NextIsNew` | http/lib/http_parser.c:2095-2131 | the state behind a complete message: at the start of the next one if and only if the version of the first line, the options said in the header lines and a body with an end keep the connection open, and dead otherwise |
| `HttpPersistence.PersistenceIff` | http/lib/http_parser.c:2121-2131 | that agrees with section 6.3 of RFC 7230 if and only if: version 0, and no keep-alive is heard; or 1.1 and others that end in no zero, and close is heard exactly when it is listed; or 1.0, and keep-alive is heard exactly when it is listed without close; or 2.0 and later ones that end in a zero, and keep-alive is heard exactly when close is not listed |
| `HttpMethods.MethodRecognised` | http/lib/http_parser.c:954-1051 | the first word of a request line is accepted exactly when it is the name of a method, as that method, although the matcher changes its mind on the way |
| `HttpFraming.FeedIdentity` | http/lib/http_parser.c:1882-1932 | a body of declared length: exactly its bytes, then one completion, with no byte left over |
| `HttpFraming.FeedChunk` | http/lib/http_parser.c:1934-2052 | one chunk of section 4.1 of RFC 7230, its size in any digits that fit and with any extension: its bytes between a chunk header with its size and a chunk completion, and the parser is back at a size |
| `HttpFraming.FeedLastChunk` | http/lib/http_parser.c:1934-2013 | the last chunk completes the message exactly at its last byte |
| `HttpLineGrammar.SizeLineIff` | http/lib/http_parser.c:1934-2013 | a size line is accepted if and only if it is hexadecimal digits that fit, perhaps an extension set off by a semicolon or a space, and CRLF |
| `HttpLineGrammar.ChunkEndIff` | http/lib/http_parser.c:2038-2052 | the data of a chunk has to be followed by CRLF |
| `HttpFraming.FeedChunked` | http/lib/http_parser.c:1934-2052 | the chunked coding of any list of chunks, however their sizes are written and extended, is decoded to exactly those chunks, with one completion, at the last byte |
| `HttpFraming.ChunkedCalm` | http/lib/http_parser.c:1934-2052 | the chunked coding of any list of chunks, however long, stays within the limit of the header counter if every size line does, since every chunk resets it |
| `HttpFraming.IdentityCalm` | http/lib/http_parser.c:1882-1932 | nor does a body of declared length, however long, count at all |
| `HttpFraming.UntilEofCalm` | http/lib/http_parser.c:1919-1923 | nor a body that lasts until the connection closes |
| `HttpDelivery.DeliverSegments` | http/lib/http_parser.c:636-2092 | any stream read to its end in any segments, through the real function call by call, when its header bytes, with one for every segment that begins where names and values may be cut, stay within the limit: the parser and the callbacks are those of the whole stream |
| `HttpDelivery.DeliverChunked` | http/lib/http_parser.c:636-2092 | any list of chunks, coded in any way and cut into any segments: the call reports no error, the body delivered is the chunks, the message is completed once |
| `HttpDelivery.DeliverIdentity` | http/lib/http_parser.c:1882-1932 | any body of declared length cut into any segments, through the real function: exactly its bytes are called back in order, then one completion, and the parser is at the next message |
| `HttpDelivery.DeliverUntilEof` | http/lib/http_parser.c:654-672 | any body without a length in any segments and then the end of the stream: exactly its bytes and one completion |
| `HttpStartLines.FeedStartLine` | http/lib/http_parser.c:758-1246 | a request line or a status line hands over its target or its reason, and leaves exactly its method, version and status in the parser |
| `HttpTargets.TargetIff` | http/lib/http_parser.c:487-633 | the URL automaton of the parser takes for a target exactly what a grammar says: a path, or a schema and an authority without two @ in a row, or that authority alone for a CONNECT, each with what may follow |
| `HttpLineGrammar.RequestLineIff` | http/lib/http_parser.c:954-1246 | a first line is accepted if and only if it is: the name of a method, spaces, a target, and either nothing or spaces, HTTP/ and two numbers of at most 999, the first without a leading zero; CR only before the LF |
| `HttpLineGrammar.RequestLineLeaves` | http/lib/http_parser.c:954-1246 | such a line leaves its method and its version, 0.9 without one, and no other field changed beyond a fresh start |
| `HttpLineGrammar.LineEndsSkipped` | http/lib/http_parser.c:954-957 | line ends before a request are skipped |
| `HttpLineGrammar.EitherKind` | http/lib/http_parser.c:721-756 | a parser for either kind of message takes what begins with HT for a response and anything else it does not refuse for a request, and then does what a parser for that kind does |
| `HttpStatusGrammar.StatusLineIff` | http/lib/http_parser.c:758-952 | a status line is accepted if and only if it is: HTTP/, two numbers of at most 999, a space, spaces, a number of at most 999, and perhaps a space and a reason; CR only before the LF |
| `HttpStatusGrammar.StatusLineLeaves` | http/lib/http_parser.c:758-952 | such a line leaves its version and its status |
| `HttpMessages.FeedHead` | http/lib/http_parser.c:702-1880 | the head of a message, from its first byte on: everything in it is handed over, and the framing chosen is the standard's |
| `HttpMessages.FeedMessage` | http/lib/http_parser.c:702-2058 | a whole message written as the standard says, rightly framed and with its body in that framing: the target or reason, the names and values, and the body are handed over in order, then one completion; and the parser is in the state that the text of the message says, at the next message or dead |
| `HttpMessages.BehindMessage` | http/lib/http_parser.c:2095-2131 | a message that keeps the connection open leaves a parser on which the next message can be fed |
| `HttpMessages.FeedMessages` | http/lib/http_parser.c:702-2058 | any list of messages in a row on one connection, all but the last of which keep it open: the events of each, in order, with one completion each |
| `HttpMessages.NothingBehind` | http/lib/http_parser.c:711-719 | behind a message that does not keep the connection open nothing but line ends is accepted: any other byte is refused as coming after the close |
| `HttpMessages.DeliverMessage` | http/lib/http_parser.c:636-2092 | the same for the real function and any segments, when the header bytes stay within the limit; a body that lasts until the close is completed by it; the state behind it is the one the text says |
| `HttpRoundTrip.Relay` | http/HttpBodyFile.cpp:233-323 | from end to end: any non-empty file, sent through any schedule of partial sends and suspended calls, and received by the parser in any segments, arrives as that file, with the message completed once; and it does arrive when the socket takes something as often as the coding has bytes and there is a call for every recall and one more |
| `HttpUrl.LayoutStep` | http/lib/http_parser.c:2354-2414 | one more character keeps the fields set so far non-empty, disjoint, in the order of their places, and with nothing but delimiters between them |
| `HttpUrl.ExpectedState` | http/lib/http_parser.c:2358-2398 | after an accepted character the splitter is in one of the states its switch expects, so the arm that asserts false is not reached |
| `HttpUrl.HostStep` | http/lib/http_parser.c:2173-2252 | one more character of the authority keeps user info, host and port where the automaton says they are |
| `HttpUrl.HttpParserUrl.ParseHost` | http/lib/http_parser.c:2173-2335 | accepts exactly the authorities of the grammar (user information, a host name or a literal with an optional zone, a port of at least one digit), which come apart in one way; user info, host and port are then its parts, and no other field changes |
| `HttpUrl.HttpParserUrl.ParseUrl` | http/lib/http_parser.c:2342-2444 | accepts exactly the URLs of the grammar: nothing, a path, or a schema with an authority, a port below 65536 and what follows; for CONNECT an authority with a port and no user information, an @ before it and a ? and number signs behind it let through; the fields are then in range, disjoint, in order, separated only by delimiters and each where its delimiters say |
| `HttpUrlGrammar.LiteralTable` | http/lib/http_parser.c:2213-2235 | the characters of an address in brackets and of its zone, written out |
| `HttpUrlGrammar.CutUnique` | http/lib/http_parser.c:2173-2252 | an authority comes apart in one way only |
| `HttpUrlGrammar.ConnectIsMeantIff` | http/lib/http_parser.c:2426-2429 | the targets accepted for CONNECT that hold neither an @ nor a question mark are exactly the strings host:port |
| `HttpUrlGrammar.OddTarget` | http/lib/http_parser.c:2426-2429 | @a:1?# is accepted as the target of a CONNECT |
| `Dechex.HexOfValue` | core/Dechex.cpp:32-42 | the hexadecimal digits of a number have that number as their value |
| `Dechex.ReverseString` | core/Dechex.cpp:18-30 | reverses the characters in place, and touches no others |
| `Dechex.Dec2Hex` | core/Dechex.cpp:32-42 | the nine-byte buffer suffices, and what is returned are the number's digits |
| `Dechex.Hex2Dec` | core/Dechex.cpp:44-56 | reads up to eight lower-case digits to their value, without wrapping |
| `Dechex.RoundTrip` | core/Dechex.cpp:32-56 | every positive 32-bit number comes back from its digits |
| `RingBuffers.HeldPutAround` | net/RingBuffer.cpp:36-48 | a write around the end of the slab appends, in order, to what the buffer holds |
| `RingBuffers.HeldSent` | net/RingBuffer.cpp:246-262 | sending part of the run at the read pointer, and wrapping the pointer, takes exactly those bytes off the front |
| `RingBuffers.RingBuffer.WriteIn` | net/RingBuffer.cpp:22-50 | appends as much as there is space for, wherever the two pointers are |
| `RingBuffers.RingBuffer.WriteInFromFile` | net/RingBuffer.cpp:52-136 | appends from the file as much as there is space for or the file has left |
| `RingBuffers.RingBuffer.ReadOut` | net/RingBuffer.cpp:138-165 | takes the oldest bytes, at most as many as asked for |
| `RingBuffers.RingBuffer.Send2Socket` | net/RingBuffer.cpp:242-266 | under every schedule of partial sends: terminates, what has been sent is the front of what was held, and the rest is still held; how much is sent, and why it stopped, follows from the schedule |
| `RingBuffers.DrainedProgress` | net/RingBuffer.cpp:242-266 | without errors a drain gets out at least a byte for every send that takes something, and stops early only on a recall or when the schedule is used up |
| `RingBuffers.Interleave` | net/RingBuffer.cpp:22-50 | any interleaving of writes and reads is one on a bounded first-in first-out queue: the same bytes accepted, handed out and held |
| `RingBuffers.FirstInFirstOut` | net/RingBuffer.cpp:22-165 | and of such a queue: what was held and accepted is what was handed out and is still held, in order |
| `HttpBodyFiles.HttpBodyFile.SendChunk` | http/HttpBodyFile.cpp:233-323 | one call, suspended by the socket wherever it likes: what has been sent is a prefix of the coding, it is all of it exactly when the call is done, and a suspended call leaves just the rest to send |
| `HttpBodyFiles.HttpBodyFile.Reset` | http/HttpBodyFile.cpp:341-353 | gives up the file, clears the ring, and puts the machine back at its start |
| `HttpBodyFiles.Transfer` | http/HttpBodyFile.cpp:233-323 | any number of calls on a non-empty file: always a prefix of the coding, done exactly when all of it is out, and done when the socket takes something often enough and is called once more than it recalls |
| `HttpBodyFiles.EmptyTransfer` | http/HttpBodyFile.cpp:234-239 | an empty file, by any number of calls on any schedule of sends: every call starts the terminator again, so that what is sent are the pieces of the suspended calls and then the terminator |
| `HttpBodyFiles.EmptyIsRightIff` | http/HttpBodyFile.cpp:234-239 | a finished transfer of an empty file has sent the terminator alone if and only if the first call that sent anything sent all of it |
| `HttpBodyFiles.EmptyIsWrong` | http/HttpBodyFile.cpp:234-239 | a schedule with one partial send and one recall on which the receiver gets a zero too many |
| `HttpBodyFiles.WireBegins` | http/HttpBodyFile.h:20 | a file of 8192 bytes or more begins with a chunk announced with 8192 bytes |
| `HttpBodyFiles.WireIsChunked` | http/HttpBodyFile.cpp:245-313 | when announced size and size read agree, what goes out is the chunked coding of the file in pieces of at most 8192 bytes |
| `HttpBodyFiles.WireIsRightIff` | http/HttpBodyFile.cpp:233-323 | what goes out is a chunked coding of the file, for every file of a size, if and only if the ring has the default length or the file fits one chunk |
| `HttpBodyFiles.SizeLineUnique` | http/HttpBodyFile.cpp:249-253 | a size line determines the size and what follows it |
| `HttpBodyFiles.SentIsReceived` | http/HttpBodyFile.cpp:233-323 | the bytes of a file sent with the default ring, fed to the parser at a chunk size, deliver exactly the file, with the message completed once and every byte accounted for |
| `ThreadPools.PushKeeps` | thread/ThreadPool.h:38-49 | run under the mutex keeps the invariant: a bounded first-in first-out queue, mutual exclusion, no lost wakeup, and every task handed over in one place |
| `ThreadPools.TakeKeeps` | thread/ThreadPool.h:90-104 | take under the mutex keeps the invariant |
| `ThreadPools.StepKeeps` | thread/ThreadPool.h:38-108 | every step of every thread keeps the invariant, with pthread_cond_signal waking any waiter it likes and waits returning on their own |
| `ThreadPools.RunKeeps` | thread/ThreadPool.h:38-108 | the invariant holds over every run; and what has been pushed, taken and finished stays so, in order |
| `ThreadPools.NoDeadlock` | thread/ThreadPool.h:38-108 | in a running pool with a worker, the threads come to a halt only when every call of run has returned and every task is finished |
| `ThreadPools.DeadlockFreeIff` | thread/ThreadPool.h:38-62 | a running pool is free of deadlock over every run if and only if it was started with at least one worker |
| `ThreadPools.NoWorkers` | thread/ThreadPool.h:51-62 | in a pool started without workers no call of run ever returns, over every legal run, stirs and stop included |
| `ThreadPools.FirstCallBlocks` | thread/ThreadPool.h:51-62 | such a pool comes to a halt at the first call, with its task unserved |
| `ThreadPools.StepBurns` | thread/ThreadPool.h:38-108 | every step a thread makes of itself, wakeups it gives included, uses up a bound on the steps still to come |
| `ThreadPools.ComesToRest` | thread/ThreadPool.h:38-108 | left to themselves the threads come to rest after boundedly many steps in whatever order: with everything served while the pool runs, with every worker out of its loop once it is stopped |
| `ThreadPools.StopJoins` | thread/ThreadPool.h:74-86 | once stopped, the threads halt only when every worker has left its loop, so stop can join them |
| `ThreadPools.StopLeaves` | thread/ThreadPool.h:64-108 | after stop no worker waits on notEmpty_ and each leaves its loop within four steps of its own, whatever other threads do |
| `ThreadPools.ThreadPool.Run` | thread/ThreadPool.h:38-49 | one pass of run's wait loop under the mutex: blocks when the queue is full, else appends the task and wakes a worker |
| `ThreadPools.ThreadPool.Take` | thread/ThreadPool.h:90-104 | one pass of take's wait loop under the mutex: waits when the queue is empty and the pool runs, else takes the first task, if there is one, and wakes a caller |
| `ThreadPools.ThreadPool.StopAll` | thread/ThreadPool.h:74-81 | stop up to its joins leaves no worker waiting |
| `TimeWheels.TicksAway` | net/TimeWheelEvent.cpp:60-112 | a channel left alone loses one tick at every jump of the clock, and there is no jump past its last |
| `TimeWheels.TimesOutExactly` | net/TimeWheelEvent.cpp:60-112 | over every sequence of operations: a channel last refreshed outside a sweep can be timed out exactly with as many jumps between as the wheel has nodes, no further jump comes before, and that sweep does not end without it |
| `TimeWheels.RefreshedInSweep` | net/TimeWheelEvent.cpp:60-67 | a channel refreshed during a sweep is due in that very sweep |
| `TimeWheels.TimeWheel.constructor` | net/TimeWheelEvent.cpp:136-149 | builds a circle of as many nodes as asked for, at least one |
| `TimeWheels.TimeWheel.Remove` | net/TimeWheelEvent.cpp:69-78 | the search from the current node around the circle ends, and takes the channel from the one node it can be in |
| `TimeWheels.TimeWheel.UpdateChannel` | net/TimeWheelEvent.cpp:60-67 | moves the channel to the current node: it is in that node and no other; the clock records a refresh |
| `TimeWheels.TimeWheel.EraseChannel` | net/TimeWheelEvent.cpp:69-78 | takes the channel from the wheel; the clock records an erasure |
| `TimeWheels.TimeWheel.Advance` | net/TimeWheelEvent.cpp:80-83 | turns the wheel by one node, which brings every channel one tick nearer |
| `EventsLoops.FreedOnce` | net/EventsLoop.cpp:37-50 | in every lawful history a channel is freed exactly once for every time it was unregistered, save for one still pending, even when its address is allocated again |
| `EventsLoops.SoundBuried` | net/EventsLoop.cpp:37-50 | unregistering leaves no table leading to the channel: not its socket, not epoll, not the wheel; and it bears the tombstone |
| `EventsLoops.EventsLoop.RegisterChannel` | net/EventsLoop.cpp:22-35 | creates a channel at a free address, or watches the one there is, in the interest list when epoll takes it; keeps the tables sound and the history lawful |
| `EventsLoops.EventsLoop.UnregisterChannel` | net/EventsLoop.cpp:37-50 | marks the channel and puts it up for deletion, freeing nothing |
| `EventsLoops.EventsLoop.CloseSocket` | net/Socket.cpp:267-276 | unregisters the channel, which is then pending, and closes the descriptor, which epoll no longer watches |
| `EventsLoops.EventsLoop.SweepOne` | net/TimeWheelEvent.cpp:95-109 | every pass of the sweep takes a channel from the node and times it out, while in use; only channels that the callback has newly registered join the node, and one that reopens and registers a socket leaves it non-empty |
| `EventsLoops.EventsLoop.ClearCurrentTimeNode` | net/TimeWheelEvent.cpp:86-112 | the sweep makes no more passes than there were channels in the node and have been registered by its callbacks; no more than there were, when the callbacks register none; and it leaves the node empty |
| `EventsLoops.EventsLoop.SweepGoesOn` | net/TimeWheelEvent.cpp:95-109 | as long as the timeout callbacks register, the sweep does not end, however many passes it has made |
| `EventsLoops.EventsLoop.CleanNeedDeletedChannels` | net/EventsLoop.cpp:259-266 | frees exactly the channels put up for deletion; those in use stay as they are |
| `EventsLoops.EventsLoop.ClockEventHandle` | net/TimeWheelEvent.cpp:42-52 | a clock event that can be read means exactly one jump of the clock and the whole of its sweep; one that cannot means nothing |
| `EventsLoops.EventsLoop.Ask` | net/EventsLoop.cpp:11-17 | a callback that is due: called if there is a handler, and what DECIDE_EVENTCALLBACK makes of what it returns; on a break the channel is refreshed in the wheel, and only a dropped batch frees channels |
| `EventsLoops.EventsLoop.Stage` | net/EventsLoop.cpp:107-158 | one test for an event: the callback of its kind is due exactly when the kind is reported and the channel still valid, and the pass goes on, or is over |
| `EventsLoops.EventsLoop.HandleEvent` | net/EventsLoop.cpp:84-160 | all callbacks of one reported channel: those of the kinds reported, between the one before and the one after, in that order, each called if there is a handler, until one breaks off, drops the batch or has the channel unregistered; a closed channel is skipped; the channel is then refreshed in the wheel; the clock jumps once for each clock event read |
| `EventsLoops.EventsLoop.WaitChannel` | net/EventsLoop.cpp:72-164 | one batch, with callbacks that register, unregister, close and forget any sockets: every reported channel that is watched has its callbacks as above, in the order reported, until the batch is dropped; no freed channel is looked at, no unregistered one called back, and nothing is left pending |
| `EventsLoops.EventsLoop.Loop` | net/EventsLoop.cpp:56-63 | any number of batches until epoll fails, the timer registered first: the history is lawful, and every channel has been freed exactly as often as it was unregistered |
| `HttpProxyConnections.HandshakeOrder` | http/HttpProxyConnection.cpp:456-580 | in every lawful trace each step of the client's TLS handshake comes after the 200 was sent completely, the handshake with the server succeeded, its certificate was signed anew and installed, in that order, with no recycling in between |
| `HttpProxyConnections.EnteredStates` | http/HttpProxyConnection.cpp:611-704 | the tunnel state and the four CLOSE states are never entered; the 200 and forwarding states only while the server socket exists |
| `HttpProxyConnections.MethodDecides` | http/HttpProxyConnection.cpp:624-628 | in every lawful trace the 200 of a tunnel is begun and told only for the last request parsed when its method is CONNECT, and a request forwarded only when it is not |
| `HttpProxyConnections.HttpProxyConnection.PredictNextState` | http/HttpProxyConnection.cpp:611-704 | the next state, entered lawfully from every state the driver can be in, for what has become of the request |
| `HttpProxyConnections.HttpProxyConnection.CloseHandle` | http/HttpProxyConnection.cpp:124-163 | ends, and leaves the connection recycled or some socket armed; sockets are told apart by their descriptors |
| `HttpProxyConnections.HttpProxyConnection.RequestHeaderCompleteHandle` | http/HttpProxyConnection.cpp:165-203 | keeps the server for the same host; otherwise, and whenever there is none, gives it up and asks the resolver, after which there is a server or the resolver is at work or has failed; the client and the state stay |
| `HttpProxyConnections.HttpProxyConnection.TurnStage` | http/HttpProxyConnection.cpp:456-464 | the cases that only turn to the next state: with a server a complete CONNECT goes to its 200, with that attached, and any other request to the server; without one to the client |
| `HttpProxyConnections.HttpProxyConnection.DoneStage` | http/HttpProxyConnection.cpp:505-525 | behind a 200 both messages are cleared, TLS is set up for both sockets and the handshake with the server begins; behind a response they are cleared and the next request is awaited; behind a request the response is |
| `HttpProxyConnections.HttpProxyConnection.Receive` | http/HttpProxyConnection.cpp:328-330 | what is read from either socket is moved, without loss, to the other's output buffer |
| `HttpProxyConnections.HttpProxyConnection.AfterParse` | http/HttpProxyConnection.cpp:366-455 | once bytes of a request have been parsed: a notification is attached exactly when they are malformed or the server could not be reached; the driver then goes on towards sending it exactly if the request is complete, and back to reading otherwise, as it always does behind a 400; a complete request waits exactly when the resolver is at work |
| `HttpProxyConnections.HttpProxyConnection.ReceiveStage` | http/HttpProxyConnection.cpp:312-455 | the receiving cases: stop armed, gone or waiting for the resolver, or go on after reading; what is attached for a request is as above, and a refused request stays refused with nothing sent until its client is gone |
| `HttpProxyConnections.HttpProxyConnection.SendNotice` | http/HttpProxyConnection.cpp:456-503 | a notification attached to a complete request goes out: all of it when the driver goes on, and otherwise what the socket has not taken is still held |
| `HttpProxyConnections.HttpProxyConnection.DropRequest` | http/HttpProxyConnection.cpp:447-519 | a complete request without a server, whose resolver has neither failed nor is at work, is dropped with nothing sent, and the next one awaited |
| `HttpProxyConnections.HttpProxyConnection.SendStage` | http/HttpProxyConnection.cpp:467-503 | the sending cases: go on exactly with an empty output buffer |
| `HttpProxyConnections.HttpProxyConnection.ServerHandshakeStage` | http/HttpProxyConnection.cpp:527-544 | the server's handshake and the signing of its certificate, in that order, or the connection is gone or waits |
| `HttpProxyConnections.HttpProxyConnection.ClientHandshakeStage` | http/HttpProxyConnection.cpp:556-575 | the client's handshake, entered only with the way to it complete |
| `HttpProxyConnections.HttpProxyConnection.Step` | http/HttpProxyConnection.cpp:302-590 | every pass of the loop stops, or reads something, or clears a complete request, or moves on along the way round |
| `HttpProxyConnections.HttpProxyConnection.RWEventHandle` | http/HttpProxyConnection.cpp:294-593 | always returns, by the measure of unread bytes, complete request and state; and then in a state in which something has to be waited for, with a socket armed, or the connection gone, or a request waiting for the resolver, newly read |
| `HttpProxyConnections.HttpProxyConnection.ServerConnectHandle` | http/HttpProxyConnection.cpp:205-242 | the resolver's answer: with a server, drives a waiting request on; without one, attaches a 503 to a client armed for writing, after which nothing calls the driver |
| `HttpProxyConnections.Happen` | http/HttpProxyConnection.cpp:104-163 | any event keeps the connection lawful; one that has a handler leaves a connection whose notification is stuck as it is, with nothing sent, or closes its client |
| `HttpProxyConnections.Unanswered` | net/Acceptor.cpp:98-102 | a bad request, and a complete one whose host is not found or cannot be reached, are never answered: over any events, nothing more is sent to the client until its socket is closed |
| `HttpProxyConnections.Drive` | http/HttpProxyConnection.cpp:104-122 | any run through any events: handshakes in order, no tunnel or CLOSE state entered and forwarding only with a server, the 200 for a CONNECT only and only other requests forwarded, and every byte read from the client sent to the server in order or still held for it |
| `Base64.StandardTables` | http/lib/base64.c:90-107 | basis_64 and pr2six are the alphabet of table 1 of RFC 4648, in both directions |
| `Base64.TestVectors` | http/lib/base64.c:174-209 | test vectors of section 10 of RFC 4648 |
| `Base64.BytesOfDigits` | http/lib/base64.c:126-209 | decoding the digits of a byte string gives it back |
| `Base64.DigitsOfBytes` | http/lib/base64.c:126-209 | coding what digits were decoded to gives them back if and only if no single digit is left over and the bits behind the last byte are zero |
| `Base64.DigitsSpell` | http/lib/base64.c:179-209 | the digits spell in base 64 the number that the bytes spell in base 256, followed by the zero bits that fill up the last digit (section 4 of RFC 4648) |
| `Base64.ValuesOfEncoded` | http/lib/base64.c:118-135 | the scan for the end of the digits stops exactly behind those of the encoding |
| `Base64.Base64encode` | http/lib/base64.c:174-209 | the encoding in the alphabet of RFC 4648 with padding and terminator, which fills exactly what Base64encode_len asks for; nothing behind is touched |
| `Base64.Base64decode` | http/lib/base64.c:111-169 | the decoded bytes, their count, and a zero byte, within what Base64decode_len asks for; nothing behind is touched |
| `Base64.Base64decodeLength` | http/lib/base64.c:111-124 | the length asked for a decoding, which Base64decode stays within |
| `Base64.RoundTrip` | http/lib/base64.c:111-209 | every byte string comes back from its encoding, with its length |
| `DnsNames.DotsIffNormal` | dns/DNSResolver.cpp:250-264 | the labels strtok finds, each followed by a dot, are the name and a dot if and only if the name has no empty labels |
| `DnsNames.Strtok` | dns/DNSResolver.cpp:251-263 | the next label and where to go on |
| `DnsNames.PackName` | dns/DNSResolver.cpp:247-265 | the name as labels with their lengths and a zero, within the query buffer |
| `DnsNames.PackDNSQuery` | dns/DNSResolver.cpp:203-285 | the whole query, field by field as section 4.1 of RFC 1035 has them: id, recursion desired and no other flag, one question of type A and class IN for the name, and an OPT record for 1280 bytes; and zeros behind |
| `DnsNames.ResolveRRName` | dns/DNSResolver.cpp:465-497 | on every readable message: ends, gives the expanded name, every label followed by a dot, and the bytes the name takes |
| `DnsNames.ReadPacked` | dns/DNSResolver.cpp:465-497 | reading a packed name back gives every label and takes exactly its bytes, anywhere in a message, if and only if no label has a length that is a multiple of 64 |
| `DnsNames.AgreesIffLow` | dns/DNSResolver.cpp:473-494 | on every name that section 4.1.4 of RFC 1035 can read, the code reads the same if and only if all pointers met lead to the first 256 bytes |
| `DnsNames.ReadQuery` | dns/DNSResolver.cpp:203-285 | reading the name of a packed query gives the host name and a dot |
| `DnsCache.ProbesEnd` | dns/DNSCache.cpp:234-240 | both probe loops end exactly at the first probe that comes back to the first slot, after at most eight |
| `DnsCache.NoNeedIff` | dns/DNSCache.cpp:247-255 | an update is skipped exactly when the record expires later than it would and begins with the eight bytes at the host, or, when that is shorter, with the host, its terminator and what stands behind it |
| `DnsCache.StoredIsFound` | dns/DNSCache.cpp:168-207 | a record stored in the table is what the next query for the host finds, in the slot it went to |
| `DnsCache.NotNeededIsFound` | dns/DNSCache.cpp:247-255 | an update that is not needed leaves the table alone; the record in its place is found exactly when it starts with the host, otherwise the query finds nothing |
| `DnsCache.ApartIsRight` | dns/DNSCache.cpp:48-87 | a query is never answered with the address of a host for which no slot is probed in common, under any hash function and whatever is stored |
| `DnsCache.Mistaken` | dns/DNSCache.cpp:73-76 | when one of two hosts begins with the other and any slot is probed for both, there is a run in which the query for the one is answered with the other's address, for both orders |
| `DnsCache.RightIffApart` | dns/DNSCache.cpp:48-87 | of two such hosts the one is never answered with the other's address if and only if no slot is probed for both, whichever of them is the shorter |
| `DnsCache.SharedTable.UpdateNode` | dns/DNSCache.cpp:247-262 | every node is as it was at first or holds what some update gave for a host it is probed for |
| `DnsCache.Cache.FindTarget` | dns/DNSCache.cpp:173-202 | the probes walk to the first slot that takes the host, or to the oldest of them |
| `DnsCache.Cache.DNS2Shared` | dns/DNSCache.cpp:168-207 | stores a record in the table |
| `DnsCache.Cache.Memory2Shared` | dns/DNSCache.cpp:152-164 | stores every record that has not expired in the table, each once, and keeps nothing |
| `DnsCache.Cache.Store2Memory` | dns/DNSCache.cpp:144-149 | keeps an update for which the lock could not be had |
| `DnsCache.Cache.UpdateDNS` | dns/DNSCache.cpp:89-103 | with the lock the update is stored in the table and then what the process had kept; without it the update is kept; with a negative lifetime nothing happens |
| `DnsCache.Cache.QueryIP` | dns/DNSCache.cpp:48-87 | the first probe that hits, walked in the same sequence as by an update, once the kept records are in the table; a hit is an unexpired address some update gave for the host, or for one related to it with which it shares a probe |
| `DnsCache.Run` | dns/DNSCache.cpp:48-206 | any run by any number of processes: every operation does to the table, the clock and the processes what it should, with the answer the probes find; and when no slot is probed for two of the hosts one of which begins with the other, every answer is an address that an earlier update of the run gave for the host asked for, and not expired |

## Left out

- HttpParserExecute.HttpParser.ExecuteSegment: what a call does behind a byte that has slipped through, beyond the general invariant. That no overflow is reported is proved from the count of header bytes, which allows for one more byte for every segment that ends inside a header name or value; that an overflow is reported whenever the count passes the limit is not. Segments are shorter than 2^32 - 163840 bytes, below which the 32-bit counter cannot wrap within one call. The header state of a parser that has rejected a byte of a header value, which is not written back and never read again, is left open.
- HttpDelivery.DeliverSegments: streams that end in an error or an upgrade are covered segment by segment only, by `Segmentation` and `ExecuteSegment`.
- HttpMessages.FeedMessage: for messages behind which no other protocol begins; the application's verdict does not depend on the fields of the matchers; versions of one digit each, as the standard has them.
- HttpRoundTrip.Relay: for the ring's default length; `WireIsRightIff` says what becomes of others.
- Callbacks of the parser return 0, except that `on_headers_complete` may return any verdict; callbacks that change or pause the parser, and those of `http/HttpParser.cpp`.
- A data callback for an empty piece (an empty header value) leaves no trace in the model's log, which is one of bytes.
- HttpMessages.FeedMessages: messages written as the standard says; line ends between them are skipped, as `LineEndsSkipped` says, and not part of the list.
- HttpHeaderGrammar.HeaderLineIff: of a line that goes on in the next one, the part up to its line end.
- HttpLineGrammar.RequestLineIff: which of the error codes a refused line gets, as with the other grammars; `NothingBehind` names the one behind a close.
- HttpHeaderValues.OptionsRecognised: for values on one line, as `ChunkedRecognised`, `WholeLength` and the theorems on headers and messages are; what a value folded over lines means is not said.
- HttpUrl.HttpParserUrl.ParseUrl: for URLs shorter than 65536 bytes, whose offsets fit the 16-bit fields; the port is read from its own digits, without the `strtoul` that looks at what stands behind the URL.
- Trailer fields after a chunked body, beyond what the general theorems about segments and invariants say of them.
- HttpBodyFiles.HttpBodyFile.SendChunk: reads of a regular file are full and its size is stable; a socket that recalls has taken no bytes in that call; with the non-TLS socket every error is a recall, since the test `EAGAIN == errno || EWOULDBLOCK` of `SocketUtil::Send` is always true.
- RingBuffers.RingBuffer.Send2Socket: the write pointer does not rest one past the end of the slab when a drain begins; `SendChunk` keeps it so.
- `sendFileChunk`, `sendFileContent`, `sendContent`, `HttpBodyFile::writeIn` and `flushFile`, and `readOut` to a file.
- ThreadPools.StopLeaves: callers of `run` that still wait when the pool is stopped; tasks are taken to end, and not to call `run` themselves; reading `running_` outside the mutex is one step.
- The `holder_` of `ThreadMutex`, and `Condition::waitForSeconds`.
- EventsLoops.EventsLoop.ClearCurrentTimeNode: how callbacks come out is given by a list of replies, so that a loop that would not end is seen as one that takes more passes than any number, in `SweepGoesOn`.
- EventsLoops.EventsLoop.WaitChannel: sockets are not destroyed while the loop runs; a callback that is not set is one that does nothing; the descriptor of a socket is any number a callback opens it with; epoll reports what is in its interest list.
- The identifiers of the wheel's nodes, and the destruction of the list.
- HttpProxyConnections.HttpProxyConnection.RWEventHandle: what sockets, TLS, resolver and parser come up with is any outcome they can have, not a model of them; the bytes sent to the client are counted, not told apart; the tunnel handlers, which are never installed.
- HttpProxyConnections.HttpProxyConnection.ServerConnectHandle: an answer that comes after a later query was answered at once, from the cache or by an address, is not told apart from none.
- HttpProxyConnections.HttpProxyConnection.DropRequest: that sockets and resolver do come out so, since what they come up with is left open.
- HttpProxyConnections.Drive: which events have a handler, as it is proved for all. The client's socket is given none for writing (net/Acceptor.cpp:98-102), so that a response sent in part waits for another event; `Unanswered` takes that into account.
- HttpProxyConnections.HttpProxyConnection.SendNotice: how much of a notification the socket takes.
- DnsNames.ResolveRRName: for messages in which the name can be read to its end; the C code does not check that it can, nor that the caller's buffer has room for the name.
- DnsNames.PackName: for host names that fit the 255-byte buffer, as the C code does not check.
- Resource records, the resolver's asynchronous flow, and the cache's sticky nodes.
- DnsCache.Cache.QueryIP: the clock stands still during one operation; MD5 is any function; addresses are whole strings; the shared memory is there.
- `http/HttpProxy.cpp`, `http/HttpConnection.*`, `net/ConnectionFactory.*`, `net/Buffer.*`, the certificate cache, configuration, logging and daemon code.
