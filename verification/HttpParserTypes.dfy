/**
 * The entities of the push parser: states, header-matching states, methods, flags and the trace of callbacks.
 */
module HttpParserTypes {
  import opened Basics

  const ULLONG_MAX: nat := 0xFFFF_FFFF_FFFF_FFFF
  const TWO_TO_64: nat := 0x1_0000_0000_0000_0000
  const HTTP_MAX_HEADER_SIZE: nat := 80 * 1024

  datatype MessageType = Request | Response | Both

  datatype State =
    | Dead
    | StartReqOrRes | ResOrRespH | StartRes
    | ResH | ResHT | ResHTT | ResHTTP
    | ResFirstMajor | ResMajor | ResFirstMinor | ResMinor
    | ResFirstStatusCode | ResStatusCode | ResStatusStart | ResStatus | ResLineAlmostDone
    | StartReq | ReqMethod | ReqSpacesBeforeUrl
    | ReqSchema | ReqSchemaSlash | ReqSchemaSlashSlash | ReqServerStart | ReqServer | ReqServerWithAt
    | ReqPath | ReqQueryStringStart | ReqQueryString | ReqFragmentStart | ReqFragment
    | ReqHttpStart | ReqHttpH | ReqHttpHT | ReqHttpHTT | ReqHttpHTTP
    | ReqFirstMajor | ReqMajor | ReqFirstMinor | ReqMinor | ReqLineAlmostDone
    | HeaderFieldStart | HeaderField
    | HeaderValueDiscardWs | HeaderValueDiscardWsAlmostDone | HeaderValueDiscardLws
    | HeaderValueStart | HeaderValue | HeaderValueLws | HeaderAlmostDone
    | ChunkSizeStart | ChunkSize | ChunkParameters | ChunkSizeAlmostDone
    | HeadersAlmostDone | HeadersDone
    | ChunkData | ChunkDataAlmostDone | ChunkDataDone
    | BodyIdentity | BodyIdentityEof
    | MessageDone

  /** PARSING_HEADER: every state up to HeadersDone. */
  predicate ParsingHeader(s: State) {
    match s
    case ChunkData | ChunkDataAlmostDone | ChunkDataDone | BodyIdentity | BodyIdentityEof | MessageDone => false
    case _ => true
  }

  predicate IsUrlState(s: State) {
    match s
    case ReqSchema | ReqSchemaSlash | ReqSchemaSlashSlash => true
    case ReqServerStart | ReqServer | ReqServerWithAt | ReqPath => true
    case ReqQueryStringStart | ReqQueryString | ReqFragmentStart | ReqFragment => true
    case _ => false
  }

  datatype HState =
    | General
    | C | CO | CON
    | MatchingConnection | MatchingProxyConnection | MatchingContentLength | MatchingTransferEncoding | MatchingUpgrade
    | Connection | ContentLength | TransferEncoding | Upgrade
    | MatchingTransferEncodingChunked
    | MatchingConnectionTokenStart | MatchingConnectionKeepAlive | MatchingConnectionClose
    | MatchingConnectionUpgrade | MatchingConnectionToken
    | TransferEncodingChunked
    | ConnectionKeepAlive | ConnectionClose | ConnectionUpgrade

  /** The header states the field-name loop knows; any other one would trip its assertion. */
  predicate IsFieldHState(h: HState) {
    h.General? || h.C? || h.CO? || h.CON? ||
    h.MatchingConnection? || h.MatchingProxyConnection? || h.MatchingContentLength? || h.MatchingTransferEncoding? ||
    h.MatchingUpgrade? || h.Connection? || h.ContentLength? || h.TransferEncoding? || h.Upgrade?
  }

  /** The header states under which the value loop may run. */
  predicate IsValueHState(h: HState) {
    h.General? || h.ContentLength? || h.MatchingTransferEncodingChunked? || h.MatchingConnectionTokenStart? ||
    h.MatchingConnectionKeepAlive? || h.MatchingConnectionClose? || h.MatchingConnectionUpgrade? ||
    h.MatchingConnectionToken? || h.TransferEncodingChunked? || h.ConnectionKeepAlive? || h.ConnectionClose? ||
    h.ConnectionUpgrade?
  }

  datatype Method =
    | DELETE | GET | HEAD | POST | PUT | CONNECT | OPTIONS | TRACE
    | COPY | LOCK | MKCOL | MOVE | PROPFIND | PROPPATCH | SEARCH | UNLOCK | BIND | REBIND | UNBIND | ACL
    | REPORT | MKACTIVITY | CHECKOUT | MERGE
    | MSEARCH | NOTIFY | SUBSCRIBE | UNSUBSCRIBE
    | PATCH | PURGE | MKCALENDAR | LINK | UNLINK

  function MethodString(m: Method): string {
    match m
    case DELETE => "DELETE"           case GET => "GET"                 case HEAD => "HEAD"
    case POST => "POST"               case PUT => "PUT"                 case CONNECT => "CONNECT"
    case OPTIONS => "OPTIONS"         case TRACE => "TRACE"             case COPY => "COPY"
    case LOCK => "LOCK"               case MKCOL => "MKCOL"             case MOVE => "MOVE"
    case PROPFIND => "PROPFIND"       case PROPPATCH => "PROPPATCH"     case SEARCH => "SEARCH"
    case UNLOCK => "UNLOCK"           case BIND => "BIND"               case REBIND => "REBIND"
    case UNBIND => "UNBIND"           case ACL => "ACL"                 case REPORT => "REPORT"
    case MKACTIVITY => "MKACTIVITY"   case CHECKOUT => "CHECKOUT"       case MERGE => "MERGE"
    case MSEARCH => "M-SEARCH"        case NOTIFY => "NOTIFY"           case SUBSCRIBE => "SUBSCRIBE"
    case UNSUBSCRIBE => "UNSUBSCRIBE" case PATCH => "PATCH"             case PURGE => "PURGE"
    case MKCALENDAR => "MKCALENDAR"   case LINK => "LINK"               case UNLINK => "UNLINK"
  }

  datatype Errno =
    | Ok | CbHeadersComplete
    | InvalidEofState | HeaderOverflow | ClosedConnection | InvalidVersion | InvalidStatus | InvalidMethod | InvalidUrl
    | LfExpected | InvalidHeaderToken | InvalidContentLength | UnexpectedContentLength | InvalidChunkSize
    | InvalidConstant | Strict

  datatype Flags = Flags(
    chunked: bool, keepAlive: bool, close: bool, connectionUpgrade: bool,
    trailing: bool, upgrade: bool, skipBody: bool, contentLength: bool)

  const NO_FLAGS := Flags(false, false, false, false, false, false, false, false)

  /** The parser object without its byte counter nread. */
  datatype Core = Core(
    kind: MessageType, state: State, flags: Flags, header: HState, index: nat, contentLength: nat,
    major: nat, minor: nat, status: nat, meth: Method, upgrade: bool, lenient: bool, errno: Errno)

  /** The five kinds of data the parser hands over in pieces. */
  datatype Piece = Url | StatusLine | Field | Value | Body

  /** The trace of callbacks. A data callback over several bytes is the sequence of its bytes. */
  datatype Event =
    | MessageBegin
    | Data(piece: Piece, byte: char)
    | HeadersComplete
    | MessageComplete
    | ChunkHeader(length: nat)
    | ChunkComplete

  function DataEvents(k: Piece, bytes: seq<char>): (es: seq<Event>)
    ensures |es| == |bytes|
    ensures forall i :: 0 <= i < |bytes| ==> es[i] == Data(k, bytes[i])
  {
    seq(|bytes|, i requires 0 <= i < |bytes| => Data(k, bytes[i]))
  }

  /** The answer of the on_headers_complete callback, as a function of what it can see. */
  type Settings = Core -> int
}
