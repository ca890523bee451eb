/**
 * One pass through the parser's state switch on one byte. The two scanning loops and the block copies of the body
 * appear here as what they do to a single byte; the class HttpParser runs them over whole blocks.
 */
module HttpParserStep {
  import opened Basics
  import opened HttpChars
  import opened HttpParserTypes

  /** How the switch is left: next byte, dispatch this byte again, leave after this byte, or the error label. */
  datatype Act = Advance | Again | Exit | Fail

  /**
   * The outcome of one dispatch: data marks the byte as part of the given piece (MARK), flush hands the marked
   * piece over (CALLBACK_DATA), notes are the notification callbacks, rewind sets nread to zero.
   */
  datatype Out = Out(core: Core, act: Act, data: Option<Piece>, flush: Option<Piece>, notes: seq<Event>, rewind: bool)

  /** The rank of a state in the graph of dispatches that do not consume the byte; that graph has no cycle. */
  function Rank(s: State): nat {
    match s
    case StartReqOrRes => 1
    case BodyIdentity => 1
    case HeadersAlmostDone => 1
    case HeaderFieldStart => 2
    case HeaderValueLws => 3
    case HeaderValueDiscardLws => 3
    case HeaderValue => 1
    case _ => 0
  }

  function To(c: Core, s: State): Out { Out(c.(state := s), Advance, None, None, [], false) }
  function Retry(c: Core, s: State): Out { Out(c.(state := s), Again, None, None, [], false) }
  function Keep(c: Core, s: State, k: Piece): Out { Out(c.(state := s), Advance, Some(k), None, [], false) }
  function Flush(c: Core, s: State, k: Piece): Out { Out(c.(state := s), Advance, None, Some(k), [], false) }
  function Note(c: Core, s: State, e: Event): Out { Out(c.(state := s), Advance, None, None, [e], false) }
  function Bad(c: Core, e: Errno): Out { Out(c.(errno := e), Fail, None, None, [], false) }

  /** A letter of a fixed word, under STRICT_CHECK. */
  function Expect(c: Core, ch: char, want: char, s: State): Out {
    if ch == want then To(c, s) else Bad(c, Strict)
  }

  function Fresh(c: Core): Core {
    c.(flags := NO_FLAGS, contentLength := ULLONG_MAX)
  }

  predicate MessageNeedsEof(c: Core) {
    !c.kind.Request? &&
    !(c.status / 100 == 1 || c.status == 204 || c.status == 304 || c.flags.skipBody) &&
    !(c.flags.chunked || c.contentLength != ULLONG_MAX)
  }

  predicate ShouldKeepAlive(c: Core) {
    (if c.major > 0 && c.minor > 0 then !c.flags.close else c.flags.keepAlive) && !MessageNeedsEof(c)
  }

  function NewMessage(c: Core): State {
    if !ShouldKeepAlive(c) then Dead else if c.kind.Request? then StartReq else StartRes
  }

  // ---------------------------------------------------------------- groups of states

  predicate IsStartState(s: State) {
    match s
    case Dead | StartReqOrRes | ResOrRespH | StartRes | StartReq => true
    case _ => false
  }

  predicate IsWordState(s: State) {
    match s
    case ResH | ResHT | ResHTT | ResHTTP | ReqHttpStart | ReqHttpH | ReqHttpHT | ReqHttpHTT | ReqHttpHTTP => true
    case _ => false
  }

  predicate IsVersionState(s: State) {
    match s
    case ResFirstMajor | ResMajor | ResFirstMinor | ResMinor => true
    case ReqFirstMajor | ReqMajor | ReqFirstMinor | ReqMinor => true
    case _ => false
  }

  predicate IsStatusState(s: State) {
    match s
    case ResFirstStatusCode | ResStatusCode | ResStatusStart | ResStatus | ResLineAlmostDone => true
    case _ => false
  }

  predicate IsMethodState(s: State) {
    match s
    case ReqMethod | ReqSpacesBeforeUrl | ReqLineAlmostDone => true
    case _ => false
  }

  predicate IsFieldState(s: State) {
    match s
    case HeaderFieldStart | HeaderField => true
    case _ => false
  }

  predicate IsBeforeValueState(s: State) {
    match s
    case HeaderValueDiscardWs | HeaderValueDiscardWsAlmostDone | HeaderValueDiscardLws | HeaderValueStart => true
    case _ => false
  }

  predicate IsValueState(s: State) {
    match s
    case HeaderValue | HeaderValueLws | HeaderAlmostDone => true
    case _ => false
  }

  predicate IsHeadersEndState(s: State) {
    match s
    case HeadersAlmostDone | HeadersDone => true
    case _ => false
  }

  predicate IsIdentityState(s: State) {
    match s
    case BodyIdentity | BodyIdentityEof | MessageDone => true
    case _ => false
  }

  predicate IsChunkSizeState(s: State) {
    match s
    case ChunkSizeStart | ChunkSize | ChunkParameters | ChunkSizeAlmostDone => true
    case _ => false
  }

  predicate IsChunkDataState(s: State) {
    match s
    case ChunkData | ChunkDataAlmostDone | ChunkDataDone => true
    case _ => false
  }

  // ---------------------------------------------------------------- URL

  /** The shared URL automaton; Dead means that the character is not allowed here. */
  function ParseUrlChar(s: State, ch: char): (r: State)
    ensures r.Dead? || IsUrlState(r)
  {
    if ch == ' ' || ch == CR || ch == LF || ch == '\t' || ch == '\U{c}' then Dead
    else match s
      case ReqSpacesBeforeUrl =>
        if ch == '/' || ch == '*' then ReqPath else if IsAlpha(ch) then ReqSchema else Dead
      case ReqSchema =>
        if IsAlpha(ch) then ReqSchema else if ch == ':' then ReqSchemaSlash else Dead
      case ReqSchemaSlash => if ch == '/' then ReqSchemaSlashSlash else Dead
      case ReqSchemaSlashSlash => if ch == '/' then ReqServerStart else Dead
      case ReqServerWithAt => if ch == '@' then Dead else ServerChar(ch)
      case ReqServerStart => ServerChar(ch)
      case ReqServer => ServerChar(ch)
      case ReqPath =>
        if IsUrlChar(ch) then ReqPath
        else if ch == '?' then ReqQueryStringStart
        else if ch == '#' then ReqFragmentStart
        else Dead
      case ReqQueryStringStart => QueryChar(ch)
      case ReqQueryString => QueryChar(ch)
      case ReqFragmentStart =>
        if IsUrlChar(ch) || ch == '?' then ReqFragment else if ch == '#' then ReqFragmentStart else Dead
      case ReqFragment => if IsUrlChar(ch) || ch == '?' || ch == '#' then ReqFragment else Dead
      case _ => Dead
  }

  function ServerChar(ch: char): State {
    if ch == '/' then ReqPath
    else if ch == '?' then ReqQueryStringStart
    else if ch == '@' then ReqServerWithAt
    else if IsUserInfoChar(ch) || ch == '[' || ch == ']' then ReqServer
    else Dead
  }

  function QueryChar(ch: char): State {
    if IsUrlChar(ch) || ch == '?' then ReqQueryString else if ch == '#' then ReqFragmentStart else Dead
  }

  // ---------------------------------------------------------------- start of a message

  function DispatchStart(c: Core, ch: char): (o: Out)
    requires IsStartState(c.state)
    ensures o.act.Again? ==> Rank(o.core.state) < Rank(c.state)
  {
    match c.state
    case StartReqOrRes =>
      if ch == CR || ch == LF then To(c, StartReqOrRes)
      else if ch == 'H' then Note(Fresh(c), ResOrRespH, MessageBegin)
      else Retry(Fresh(c).(kind := Request), StartReq)
    case ResOrRespH =>
      if ch == 'T' then To(c.(kind := Response), ResHT)
      else if ch != 'E' then Bad(c, InvalidConstant)
      else To(c.(kind := Request, meth := HEAD, index := 2), ReqMethod)
    case StartRes =>
      if ch == 'H' then Note(Fresh(c), ResH, MessageBegin)
      else if ch == CR || ch == LF then Note(Fresh(c), StartRes, MessageBegin)
      else Bad(Fresh(c), InvalidConstant)
    case StartReq =>
      if ch == CR || ch == LF then To(c, StartReq)
      else if !IsAlpha(ch) then Bad(Fresh(c), InvalidMethod)
      else (match FirstMethod(ch)
            case Some(m) => Note(Fresh(c).(meth := m, index := 1), ReqMethod, MessageBegin)
            case None => Bad(Fresh(c).(meth := DELETE, index := 1), InvalidMethod))
    case Dead => if ch == CR || ch == LF then To(c, Dead) else Bad(c, ClosedConnection)
  }

  // ---------------------------------------------------------------- the word HTTP/ and the version

  function DispatchWord(c: Core, ch: char): (o: Out)
    requires IsWordState(c.state)
    ensures !o.act.Again?
  {
    match c.state
    case ResH => Expect(c, ch, 'T', ResHT)
    case ResHT => Expect(c, ch, 'T', ResHTT)
    case ResHTT => Expect(c, ch, 'P', ResHTTP)
    case ResHTTP => Expect(c, ch, '/', ResFirstMajor)
    case ReqHttpStart =>
      if ch == 'H' then To(c, ReqHttpH) else if ch == ' ' then To(c, ReqHttpStart) else Bad(c, InvalidConstant)
    case ReqHttpH => Expect(c, ch, 'T', ReqHttpHT)
    case ReqHttpHT => Expect(c, ch, 'T', ReqHttpHTT)
    case ReqHttpHTT => Expect(c, ch, 'P', ReqHttpHTTP)
    case ReqHttpHTTP => Expect(c, ch, '/', ReqFirstMajor)
  }

  /** A further digit of the major or minor version, or the character that ends it. */
  function Version(c: Core, ch: char, end: char, next: State, isMajor: bool): Out {
    if ch == end then To(c, next)
    else if !IsNum(ch) then Bad(c, InvalidVersion)
    else
      var v := (if isMajor then c.major else c.minor) * 10 + DigitValue(ch);
      var c' := if isMajor then c.(major := v) else c.(minor := v);
      if v > 999 then Bad(c', InvalidVersion) else To(c', c.state)
  }

  function DispatchVersion(c: Core, ch: char): (o: Out)
    requires IsVersionState(c.state)
    ensures !o.act.Again?
  {
    match c.state
    case ResFirstMajor =>
      if IsNum(ch) then To(c.(major := DigitValue(ch)), ResMajor) else Bad(c, InvalidVersion)
    case ResMajor => Version(c, ch, '.', ResFirstMinor, true)
    case ResFirstMinor =>
      if IsNum(ch) then To(c.(minor := DigitValue(ch)), ResMinor) else Bad(c, InvalidVersion)
    case ResMinor => Version(c, ch, ' ', ResFirstStatusCode, false)
    case ReqFirstMajor =>
      if '1' <= ch <= '9' then To(c.(major := DigitValue(ch)), ReqMajor) else Bad(c, InvalidVersion)
    case ReqMajor => Version(c, ch, '.', ReqFirstMinor, true)
    case ReqFirstMinor =>
      if IsNum(ch) then To(c.(minor := DigitValue(ch)), ReqMinor) else Bad(c, InvalidVersion)
    case ReqMinor =>
      if ch == CR then To(c, ReqLineAlmostDone) else Version(c, ch, LF, HeaderFieldStart, false)
  }

  // ---------------------------------------------------------------- status line

  function DispatchStatus(c: Core, ch: char): (o: Out)
    requires IsStatusState(c.state)
    ensures !o.act.Again?
  {
    match c.state
    case ResFirstStatusCode =>
      if IsNum(ch) then To(c.(status := DigitValue(ch)), ResStatusCode)
      else if ch == ' ' then To(c, ResFirstStatusCode) else Bad(c, InvalidStatus)
    case ResStatusCode =>
      if IsNum(ch) then
        var v := c.status * 10 + DigitValue(ch);
        if v > 999 then Bad(c.(status := v), InvalidStatus) else To(c.(status := v), ResStatusCode)
      else if ch == ' ' then To(c, ResStatusStart)
      else if ch == CR then To(c, ResLineAlmostDone)
      else if ch == LF then To(c, HeaderFieldStart)
      else Bad(c, InvalidStatus)
    case ResStatusStart =>
      if ch == CR then To(c, ResLineAlmostDone)
      else if ch == LF then To(c, HeaderFieldStart)
      else Keep(c.(index := 0), ResStatus, StatusLine)
    case ResStatus =>
      if ch == CR then Flush(c, ResLineAlmostDone, StatusLine)
      else if ch == LF then Flush(c, HeaderFieldStart, StatusLine)
      else Keep(c, ResStatus, StatusLine)
    case ResLineAlmostDone => Expect(c, ch, LF, HeaderFieldStart)
  }

  // ---------------------------------------------------------------- request line

  function FirstMethod(ch: char): (m: Option<Method>)
    ensures m.Some? ==> MethodString(m.value)[0] == ch
  {
    match ch
    case 'A' => Some(ACL)     case 'B' => Some(BIND)      case 'C' => Some(CONNECT) case 'D' => Some(DELETE)
    case 'G' => Some(GET)     case 'H' => Some(HEAD)      case 'L' => Some(LOCK)    case 'M' => Some(MKCOL)
    case 'N' => Some(NOTIFY)  case 'O' => Some(OPTIONS)   case 'P' => Some(POST)    case 'R' => Some(REPORT)
    case 'S' => Some(SUBSCRIBE) case 'T' => Some(TRACE)   case 'U' => Some(UNLOCK)
    case _ => None
  }

  /** The table that turns one method into another at a given position. */
  function NextMethod(m: Method, index: nat, ch: char): Option<Method> {
    match (m, index, ch)
    case (POST, 1, 'U') => Some(PUT)
    case (POST, 1, 'A') => Some(PATCH)
    case (CONNECT, 1, 'H') => Some(CHECKOUT)
    case (CONNECT, 2, 'P') => Some(COPY)
    case (MKCOL, 1, 'O') => Some(MOVE)
    case (MKCOL, 1, 'E') => Some(MERGE)
    case (MKCOL, 2, 'A') => Some(MKACTIVITY)
    case (MKCOL, 3, 'A') => Some(MKCALENDAR)
    case (SUBSCRIBE, 1, 'E') => Some(SEARCH)
    case (REPORT, 2, 'B') => Some(REBIND)
    case (POST, 1, 'R') => Some(PROPFIND)
    case (PROPFIND, 4, 'P') => Some(PROPPATCH)
    case (PUT, 2, 'R') => Some(PURGE)
    case (LOCK, 1, 'I') => Some(LINK)
    case (UNLOCK, 2, 'S') => Some(UNSUBSCRIBE)
    case (UNLOCK, 2, 'B') => Some(UNBIND)
    case (UNLOCK, 3, 'I') => Some(UNLINK)
    case (MKCOL, 1, '-') => Some(MSEARCH)
    case (_, _, _) => None
  }

  /**
   * The character of a C string at index; its terminator is NUL. Past the terminator the read would be out of bounds.
   */
  function CharAt(s: string, index: nat): char {
    if index < |s| then s[index] else NUL
  }

  function MethodChar(c: Core, ch: char): Out {
    var want := CharAt(MethodString(c.meth), c.index);
    var c' := c.(index := (c.index + 1) % 128);
    if ch == NUL then Bad(c, InvalidMethod)
    else if ch == ' ' && want == NUL then To(c', ReqSpacesBeforeUrl)
    else if ch == want then To(c', ReqMethod)
    else match NextMethod(c.meth, c.index, ch)
      case Some(m) => To(c'.(meth := m), ReqMethod)
      case None => Bad(c, InvalidMethod)
  }

  function DispatchMethod(c: Core, ch: char): (o: Out)
    requires IsMethodState(c.state)
    ensures !o.act.Again?
  {
    match c.state
    case ReqMethod => MethodChar(c, ch)
    case ReqSpacesBeforeUrl =>
      if ch == ' ' then To(c, ReqSpacesBeforeUrl)
      else UrlChar(c, ParseUrlChar(if c.meth.CONNECT? then ReqServerStart else ReqSpacesBeforeUrl, ch))
    case ReqLineAlmostDone =>
      if ch == LF then To(c, HeaderFieldStart) else Bad(c, LfExpected)
  }

  function UrlChar(c: Core, s: State): Out {
    if s.Dead? then Bad(c.(state := Dead), InvalidUrl) else Keep(c, s, Url)
  }

  function DispatchUrl(c: Core, ch: char): (o: Out)
    requires IsUrlState(c.state)
    ensures !o.act.Again?
  {
    if ch == ' ' || ch == CR || ch == LF then
      if c.state.ReqSchema? || c.state.ReqSchemaSlash? || c.state.ReqSchemaSlashSlash? || c.state.ReqServerStart? then
        Bad(c, InvalidUrl)
      else if ch == ' ' then Flush(c, ReqHttpStart, Url)
      else Flush(c.(major := 0, minor := 9), if ch == CR then ReqLineAlmostDone else HeaderFieldStart, Url)
    else UrlChar(c, ParseUrlChar(c.state, ch))
  }

  // ---------------------------------------------------------------- header fields

  function FieldHState(t: char): HState {
    match t
    case 'c' => C
    case 'p' => MatchingProxyConnection
    case 't' => MatchingTransferEncoding
    case 'u' => MatchingUpgrade
    case _ => General
  }

  /** One more character t of a word being matched: the word is complete, still matching, or lost. */
  function MatchWord(word: string, index: nat, t: char, done: HState, more: HState, lost: HState): (h: HState)
    requires |word| > 0
    ensures h == done || h == more || h == lost
  {
    if index >= |word| || t != word[index] then lost else if index == |word| - 1 then done else more
  }

  const CONNECTION := "connection"
  const PROXY_CONNECTION := "proxy-connection"
  const CONTENT_LENGTH := "content-length"
  const TRANSFER_ENCODING := "transfer-encoding"
  const UPGRADE := "upgrade"
  const CHUNKED := "chunked"
  const KEEP_ALIVE := "keep-alive"
  const CLOSE := "close"

  /** The header-name matcher on the lower-cased token t. */
  function FieldChar(h: HState, index: nat, t: char): (HState, nat) {
    var i := (index + 1) % 128;
    match h
    case C => (if t == 'o' then CO else General, i)
    case CO => (if t == 'n' then CON else General, i)
    case CON => (if t == 'n' then MatchingConnection else if t == 't' then MatchingContentLength else General, i)
    case MatchingConnection => (MatchWord(CONNECTION, i, t, Connection, h, General), i)
    case MatchingProxyConnection => (MatchWord(PROXY_CONNECTION, i, t, Connection, h, General), i)
    case MatchingContentLength => (MatchWord(CONTENT_LENGTH, i, t, ContentLength, h, General), i)
    case MatchingTransferEncoding => (MatchWord(TRANSFER_ENCODING, i, t, TransferEncoding, h, General), i)
    case MatchingUpgrade => (MatchWord(UPGRADE, i, t, Upgrade, h, General), i)
    case _ => (General, index)
  }

  /** The first character of a header value. */
  function ValueStart(c: Core, ch: char): Out {
    var l := Lower(ch);
    var c' := c.(index := 0, state := HeaderValue);
    match c.header
    case Upgrade => Keep(c'.(flags := c.flags.(upgrade := true), header := General), HeaderValue, Value)
    case TransferEncoding =>
      Keep(c'.(header := if l == 'c' then MatchingTransferEncodingChunked else General), HeaderValue, Value)
    case ContentLength =>
      if !IsNum(ch) then Bad(c', InvalidContentLength)
      else if c.flags.contentLength then Bad(c', UnexpectedContentLength)
      else Keep(c'.(flags := c.flags.(contentLength := true), contentLength := DigitValue(ch)), HeaderValue, Value)
    case Connection =>
      Keep(c'.(header := if l == 'k' then MatchingConnectionKeepAlive
                         else if l == 'c' then MatchingConnectionClose
                         else if l == 'u' then MatchingConnectionUpgrade
                         else MatchingConnectionToken), HeaderValue, Value)
    case MatchingConnectionTokenStart => Keep(c', HeaderValue, Value)
    case _ => Keep(c'.(header := General), HeaderValue, Value)
  }

  /** A decimal digit appended to the declared length, in 64-bit arithmetic, or None on the overflow guard. */
  function LengthDigit(n: nat, d: nat): Option<nat> {
    if (ULLONG_MAX - 10) / 10 < n then None else Some((n * 10 + d) % TWO_TO_64)
  }

  function ConnectionOption(f: Flags, h: HState): Flags {
    match h
    case ConnectionKeepAlive => f.(keepAlive := true)
    case ConnectionClose => f.(close := true)
    case ConnectionUpgrade => f.(connectionUpgrade := true)
    case _ => f
  }

  /** The flags a finished header sets. */
  function FinishHeader(f: Flags, h: HState): Flags {
    if h.TransferEncodingChunked? then f.(chunked := true) else ConnectionOption(f, h)
  }

  /** A further character of a header value that is neither CR nor LF and has passed the character check. */
  function ValueChar(c: Core, ch: char): Out {
    var l := Lower(ch);
    var i := (c.index + 1) % 128;
    match c.header
    case General => Keep(c, HeaderValue, Value)
    case ContentLength =>
      if ch == ' ' then Keep(c, HeaderValue, Value)
      else if !IsNum(ch) then Bad(c, InvalidContentLength)
      else (match LengthDigit(c.contentLength, DigitValue(ch))
            case None => Bad(c, InvalidContentLength)
            case Some(n) => Keep(c.(contentLength := n), HeaderValue, Value))
    case MatchingTransferEncodingChunked =>
      Keep(c.(index := i, header := MatchWord(CHUNKED, i, l, TransferEncodingChunked, c.header, General)), HeaderValue,
           Value)
    case MatchingConnectionTokenStart =>
      Keep(c.(header := if l == 'k' then MatchingConnectionKeepAlive
                        else if l == 'c' then MatchingConnectionClose
                        else if l == 'u' then MatchingConnectionUpgrade
                        else if IsToken(l) then MatchingConnectionToken
                        else if l == ' ' || l == '\t' then c.header
                        else General), HeaderValue, Value)
    case MatchingConnectionKeepAlive =>
      Keep(c.(index := i,
              header := MatchWord(KEEP_ALIVE, i, l, ConnectionKeepAlive, c.header,
                                  MatchingConnectionToken)), HeaderValue, Value)
    case MatchingConnectionClose =>
      Keep(c.(index := i, header := MatchWord(CLOSE, i, l, ConnectionClose, c.header, MatchingConnectionToken)),
           HeaderValue, Value)
    case MatchingConnectionUpgrade =>
      Keep(c.(index := i, header := MatchWord(UPGRADE, i, l, ConnectionUpgrade, c.header, MatchingConnectionToken)),
           HeaderValue, Value)
    case MatchingConnectionToken =>
      if ch == ',' then Keep(c.(index := 0, header := MatchingConnectionTokenStart), HeaderValue, Value)
      else Keep(c, HeaderValue, Value)
    case TransferEncodingChunked =>
      Keep(c.(header := if ch != ' ' then General else c.header), HeaderValue, Value)
    case ConnectionKeepAlive => AfterOption(c, ch)
    case ConnectionClose => AfterOption(c, ch)
    case ConnectionUpgrade => AfterOption(c, ch)
    case _ => Keep(c.(header := General), HeaderValue, Value)
  }

  function AfterOption(c: Core, ch: char): Out {
    if ch == ',' then
      Keep(c.(flags := ConnectionOption(c.flags, c.header), index := 0, header := MatchingConnectionTokenStart),
           HeaderValue, Value)
    else Keep(c.(header := if ch != ' ' then MatchingConnectionToken else c.header), HeaderValue, Value)
  }

  function DispatchField(c: Core, ch: char): (o: Out)
    requires IsFieldState(c.state)
    ensures o.act.Again? ==> Rank(o.core.state) < Rank(c.state)
  {
    match c.state
    case HeaderFieldStart =>
      if ch == CR then To(c, HeadersAlmostDone)
      else if ch == LF then Retry(c, HeadersAlmostDone)
      else if !IsToken(ch) then Bad(c, InvalidHeaderToken)
      else Keep(c.(index := 0, header := FieldHState(Token(ch))), HeaderField, Field)
    case HeaderField =>
      if IsToken(ch) then
        var (h, i) := FieldChar(c.header, c.index, Token(ch));
        Keep(c.(header := h, index := i), HeaderField, Field)
      else if ch == ':' then Flush(c, HeaderValueDiscardWs, Field)
      else Bad(c, InvalidHeaderToken)
  }

  function DispatchBeforeValue(c: Core, ch: char): (o: Out)
    requires IsBeforeValueState(c.state)
    ensures o.act.Again? ==> Rank(o.core.state) < Rank(c.state)
  {
    match c.state
    case HeaderValueDiscardWs =>
      if ch == ' ' || ch == '\t' then To(c, HeaderValueDiscardWs)
      else if ch == CR then To(c, HeaderValueDiscardWsAlmostDone)
      else if ch == LF then To(c, HeaderValueDiscardLws)
      else ValueStart(c, ch)
    case HeaderValueStart => ValueStart(c, ch)
    case HeaderValueDiscardWsAlmostDone => Expect(c, ch, LF, HeaderValueDiscardLws)
    case HeaderValueDiscardLws =>
      if ch == ' ' || ch == '\t' then To(c, HeaderValueDiscardWs)
      else Retry(c.(flags := FinishHeader(c.flags, c.header)), HeaderFieldStart)           // the value was empty
  }

  function DispatchValue(c: Core, ch: char): (o: Out)
    requires IsValueState(c.state)
    ensures o.act.Again? ==> Rank(o.core.state) < Rank(c.state)
  {
    match c.state
    case HeaderValue =>
      if ch == CR then Flush(c, HeaderAlmostDone, Value)
      else if ch == LF then Out(c.(state := HeaderAlmostDone), Again, None, Some(Value), [], false)
      else if !c.lenient && !IsHeaderChar(ch) then Bad(c, InvalidHeaderToken)
      else ValueChar(c, ch)
    case HeaderAlmostDone => if ch == LF then To(c, HeaderValueLws) else Bad(c, LfExpected)
    case HeaderValueLws =>
      if ch == ' ' || ch == '\t' then Retry(c, HeaderValueStart)
      else Retry(c.(flags := FinishHeader(c.flags, c.header)), HeaderFieldStart)
  }

  function DispatchHeadersEnd(cfg: Settings, c: Core, ch: char): (o: Out)
    requires IsHeadersEndState(c.state)
    ensures o.act.Again? ==> Rank(o.core.state) < Rank(c.state)
  {
    if c.state.HeadersAlmostDone? then HeadersEnd(cfg, c, ch) else HeadersDoneChar(c, ch)
  }

  function HeadersEnd(cfg: Settings, c: Core, ch: char): Out {
    if ch != LF then Bad(c, Strict)
    else if c.flags.trailing then Out(c.(state := MessageDone), Again, None, None, [ChunkComplete], false)
    else if c.flags.chunked && c.flags.contentLength then Bad(c, UnexpectedContentLength)
    else
      var c1 := c.(state := HeadersDone, upgrade := (c.flags.upgrade && c.flags.connectionUpgrade) || c.meth.CONNECT?);
      var v := cfg(c1);
      if v == 0 then Out(c1, Again, None, None, [HeadersComplete], false)
      else if v == 1 then Out(c1.(flags := c1.flags.(skipBody := true)), Again, None, None, [HeadersComplete], false)
      else if v == 2 then Out(c1.(flags := c1.flags.(skipBody := true), upgrade := true), Again, None, None,
                              [HeadersComplete], false)
      else Bad(c1, CbHeadersComplete)
  }

  predicate HasBody(c: Core) {
    c.flags.chunked || (c.contentLength > 0 && c.contentLength != ULLONG_MAX)
  }

  function HeadersDoneChar(c: Core, ch: char): (o: Out)
    ensures !o.act.Again?
  {
    var done := Out(c.(state := NewMessage(c)), Advance, None, None, [MessageComplete], true);
    if ch != LF then Bad(c, Strict)
    else if c.upgrade && (c.meth.CONNECT? || c.flags.skipBody || !HasBody(c)) then done.(act := Exit)
    else if c.flags.skipBody then done
    else if c.flags.chunked then To(c, ChunkSizeStart).(rewind := true)
    else if c.contentLength == 0 then done
    else if c.contentLength != ULLONG_MAX then To(c, BodyIdentity).(rewind := true)
    else if !MessageNeedsEof(c) then done
    else To(c, BodyIdentityEof).(rewind := true)
  }

  // ---------------------------------------------------------------- body

  /** A hexadecimal digit appended to the chunk size, in 64-bit arithmetic, or None on the overflow guard. */
  function ChunkDigit(n: nat, d: nat): Option<nat> {
    if (ULLONG_MAX - 16) / 16 < n then None else Some((n * 16 + d) % TWO_TO_64)
  }

  /** One byte fewer to come, in 64-bit arithmetic. */
  function OneLess(n: nat): nat {
    if n == 0 then ULLONG_MAX else n - 1
  }

  function DispatchIdentity(c: Core, ch: char): (o: Out)
    requires IsIdentityState(c.state)
    ensures o.act.Again? ==> Rank(o.core.state) < Rank(c.state)
  {
    match c.state
    case BodyIdentity =>
      var n := OneLess(c.contentLength);
      if n == 0 then Out(c.(contentLength := 0, state := MessageDone), Again, Some(Body), Some(Body), [], false)
      else Keep(c.(contentLength := n), BodyIdentity, Body)
    case BodyIdentityEof => Keep(c, BodyIdentityEof, Body)
    case MessageDone =>
      Out(c.(state := NewMessage(c)), if c.upgrade then Exit else Advance, None, None, [MessageComplete], false)
  }

  function DispatchChunkSize(c: Core, ch: char): (o: Out)
    requires IsChunkSizeState(c.state)
    ensures !o.act.Again?
  {
    match c.state
    case ChunkSizeStart =>
      if Unhex(ch) == -1 then Bad(c, InvalidChunkSize) else To(c.(contentLength := Unhex(ch)), ChunkSize)
    case ChunkSize =>
      if ch == CR then To(c, ChunkSizeAlmostDone)
      else if Unhex(ch) == -1 then
        if ch == ';' || ch == ' ' then To(c, ChunkParameters) else Bad(c, InvalidChunkSize)
      else (match ChunkDigit(c.contentLength, Unhex(ch))
            case None => Bad(c, InvalidContentLength)
            case Some(n) => To(c.(contentLength := n), ChunkSize))
    case ChunkParameters => To(c, if ch == CR then ChunkSizeAlmostDone else ChunkParameters)
    case ChunkSizeAlmostDone =>
      if ch != LF then Bad(c, Strict)
      else if c.contentLength == 0 then
        Note(c.(flags := c.flags.(trailing := true)), HeaderFieldStart, ChunkHeader(0)).(rewind := true)
      else Note(c, ChunkData, ChunkHeader(c.contentLength)).(rewind := true)
  }

  function DispatchChunkData(c: Core, ch: char): (o: Out)
    requires IsChunkDataState(c.state)
    ensures !o.act.Again?
  {
    match c.state
    case ChunkData =>
      var n := OneLess(c.contentLength);
      Keep(c.(contentLength := n), if n == 0 then ChunkDataAlmostDone else ChunkData, Body)
    case ChunkDataAlmostDone => if ch == CR then Flush(c, ChunkDataDone, Body) else Bad(c, Strict)
    case ChunkDataDone => if ch == LF then Note(c, ChunkSizeStart, ChunkComplete).(rewind := true) else Bad(c, Strict)
  }

  // ---------------------------------------------------------------- the switch

  /** The switch over all states. */
  function Dispatch(cfg: Settings, c: Core, ch: char): (o: Out)
    ensures o.act.Again? ==> Rank(o.core.state) < Rank(c.state)
  {
    if IsStartState(c.state) then DispatchStart(c, ch)
    else if IsWordState(c.state) then DispatchWord(c, ch)
    else if IsVersionState(c.state) then DispatchVersion(c, ch)
    else if IsStatusState(c.state) then DispatchStatus(c, ch)
    else if IsMethodState(c.state) then DispatchMethod(c, ch)
    else if IsUrlState(c.state) then DispatchUrl(c, ch)
    else if IsFieldState(c.state) then DispatchField(c, ch)
    else if IsBeforeValueState(c.state) then DispatchBeforeValue(c, ch)
    else if IsValueState(c.state) then DispatchValue(c, ch)
    else if IsHeadersEndState(c.state) then DispatchHeadersEnd(cfg, c, ch)
    else if IsIdentityState(c.state) then DispatchIdentity(c, ch)
    else if IsChunkSizeState(c.state) then DispatchChunkSize(c, ch)
    else DispatchChunkData(c, ch)
  }
}
