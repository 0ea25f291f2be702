/** Registers, events and callbacks of the incremental HTTP parser. */
module HttpTypes {

  const MAX_HEADER_SIZE: nat := 80 * 1024
  const TWO_32: nat := 0x1_0000_0000
  const TWO_64: nat := 0x1_0000_0000_0000_0000
  /** `ULLONG_MAX`, also used for "no length was announced". */
  const NO_LENGTH: nat := TWO_64 - 1

  datatype ParserType = Request | Response | Both

  datatype State =
    | Dead
    | StartReqOrRes | ResOrRespH
    | StartRes | ResH | ResHT | ResHTT | ResHTTP | ResHttpMajor | ResHttpDot | ResHttpMinor | ResHttpEnd
    | ResFirstStatusCode | ResStatusCode | ResStatusStart | ResStatus | ResLineAlmostDone
    | StartReq
    | ReqMethod | ReqSpacesBeforeUrl | ReqSchema | ReqSchemaSlash | ReqSchemaSlashSlash
    | ReqServerStart | ReqServer | ReqServerWithAt | ReqPath | ReqQueryStringStart | ReqQueryString
    | ReqFragmentStart | ReqFragment
    | ReqHttpStart | ReqHttpH | ReqHttpHT | ReqHttpHTT | ReqHttpHTTP | ReqHttpMajor | ReqHttpDot | ReqHttpMinor
    | ReqHttpEnd | ReqLineAlmostDone
    | HeaderFieldStart | HeaderField
    | HeaderValueDiscardWs | HeaderValueDiscardWsAlmostDone | HeaderValueDiscardLws
    | HeaderValueStart | HeaderValue | HeaderValueLws | HeaderAlmostDone
    | ChunkSizeStart | ChunkSize | ChunkParameters | ChunkSizeAlmostDone
    | HeadersAlmostDone | HeadersDone
    | ChunkData | ChunkDataAlmostDone | ChunkDataDone
    | BodyIdentity | BodyIdentityEof | MessageDone

  /** `PARSING_HEADER(state)`: the states up to and including `s_headers_done`. */
  predicate ParsingHeader(s: State) {
    !(s.ChunkData? || s.ChunkDataAlmostDone? || s.ChunkDataDone? || s.BodyIdentity? || s.BodyIdentityEof?
      || s.MessageDone?)
  }

  /** The states in which `parse_url_char` is in charge of the next byte. */
  predicate InUrl(s: State) {
    s.ReqSchema? || s.ReqSchemaSlash? || s.ReqSchemaSlashSlash? || s.ReqServerStart? || s.ReqServer?
    || s.ReqServerWithAt? || s.ReqPath? || s.ReqQueryStringStart? || s.ReqQueryString?
    || s.ReqFragmentStart? || s.ReqFragment?
  }

  datatype HState =
    | General | C | CO | CON
    | MatchingConnection | MatchingProxyConnection | MatchingContentLength
    | MatchingTransferEncoding | MatchingUpgrade
    | Connection | ContentLength | ContentLengthNum | ContentLengthWs | TransferEncoding | Upgrade
    | MatchingChunked | ConnTokenStart | MatchingKeepAlive | MatchingClose | MatchingConnUpgrade | ConnToken
    | TransferEncodingChunked | ConnectionKeepAlive | ConnectionClose | ConnectionUpgrade

  datatype Method =
    | DELETE | GET | HEAD | POST | PUT | CONNECT | OPTIONS | TRACE
    | COPY | LOCK | MKCOL | MOVE | PROPFIND | PROPPATCH | SEARCH | UNLOCK | BIND | REBIND | UNBIND | ACL
    | REPORT | MKACTIVITY | CHECKOUT | MERGE
    | MSEARCH | NOTIFY | SUBSCRIBE | UNSUBSCRIBE
    | PATCH | PURGE
    | MKCALENDAR
    | LINK | UNLINK
    | SOURCE

  /** `method_strings`. */
  function MethodString(m: Method): string {
    match m
    case DELETE => "DELETE" case GET => "GET" case HEAD => "HEAD" case POST => "POST" case PUT => "PUT"
    case CONNECT => "CONNECT" case OPTIONS => "OPTIONS" case TRACE => "TRACE"
    case COPY => "COPY" case LOCK => "LOCK" case MKCOL => "MKCOL" case MOVE => "MOVE"
    case PROPFIND => "PROPFIND" case PROPPATCH => "PROPPATCH" case SEARCH => "SEARCH" case UNLOCK => "UNLOCK"
    case BIND => "BIND" case REBIND => "REBIND" case UNBIND => "UNBIND" case ACL => "ACL"
    case REPORT => "REPORT" case MKACTIVITY => "MKACTIVITY" case CHECKOUT => "CHECKOUT" case MERGE => "MERGE"
    case MSEARCH => "M-SEARCH" case NOTIFY => "NOTIFY" case SUBSCRIBE => "SUBSCRIBE"
    case UNSUBSCRIBE => "UNSUBSCRIBE"
    case PATCH => "PATCH" case PURGE => "PURGE" case MKCALENDAR => "MKCALENDAR"
    case LINK => "LINK" case UNLINK => "UNLINK" case SOURCE => "SOURCE"
  }

  datatype Flags = Flags(chunked: bool, keepAlive: bool, close: bool, connUpgrade: bool, trailing: bool,
                         upgrade: bool, skipBody: bool, contentLength: bool)

  const NO_FLAGS: Flags := Flags(false, false, false, false, false, false, false, false)

  datatype Errno =
    | OK
    | CbMessageBegin | CbUrl | CbHeaderField | CbHeaderValue | CbHeadersComplete | CbBody | CbMessageComplete
    | CbStatus | CbChunkHeader | CbChunkComplete
    | InvalidEofState | HeaderOverflow | ClosedConnection | InvalidVersion | InvalidStatus | InvalidMethod
    | InvalidUrl | LfExpected | InvalidHeaderToken | InvalidContentLength | UnexpectedContentLength
    | InvalidChunkSize | InvalidConstant | StrictError | Paused

  /** The errors of the byte automaton. */
  type Failure = e: Errno | e != OK && e != Paused && e != HeaderOverflow witness StrictError

  /** The fields of `struct http_parser`, without `nread` and without the application's pointer. */
  datatype Regs = Regs(ptype: ParserType, flags: Flags, state: State, hstate: HState, index: nat, lenient: bool,
                       clen: nat, major: nat, minor: nat, status: nat, meth: Method, errno: Errno, upgrade: bool)

  datatype DataKind = Url | Status | Field | Value | Body

  datatype Note = OnMessageBegin | OnHeadersComplete | OnChunkHeader | OnChunkComplete | OnMessageComplete

  /** One callback, with what the application can see while it runs. */
  datatype Event =
    | MessageBegin
    | Data(kind: DataKind, bytes: string)
    | HeadersComplete(meth: Method, status: nat, major: nat, minor: nat, length: nat, chunked: bool, upgrade: bool)
    | ChunkHeader(size: nat)
    | ChunkComplete
    | MessageComplete

  function EventOf(n: Note, r: Regs): Event {
    match n
    case OnMessageBegin => MessageBegin
    case OnHeadersComplete =>
      HeadersComplete(r.meth, r.status, r.major, r.minor, r.clen, r.flags.chunked, r.upgrade)
    case OnChunkHeader => ChunkHeader(r.clen)
    case OnChunkComplete => ChunkComplete
    case OnMessageComplete => MessageComplete
  }

  function NoteErrno(n: Note): Errno {
    match n
    case OnMessageBegin => CbMessageBegin
    case OnHeadersComplete => CbHeadersComplete
    case OnChunkHeader => CbChunkHeader
    case OnChunkComplete => CbChunkComplete
    case OnMessageComplete => CbMessageComplete
  }

  function DataErrno(k: DataKind): Errno {
    match k
    case Url => CbUrl
    case Status => CbStatus
    case Field => CbHeaderField
    case Value => CbHeaderValue
    case Body => CbBody
  }

  /** What a callback does: the value it returns, and whether it paused the parser first. */
  datatype Response = Resp(code: int, pause: bool)

  /** The application's callbacks, as a function of all callbacks made so far (the last one included). */
  type Handler = seq<Event> -> Response

  /** The application whose callbacks all return 0 and never pause. */
  const SILENT: Handler := (t: seq<Event>) => Resp(0, false)

  /** `http_message_needs_eof` */
  predicate MessageNeedsEof(r: Regs) {
    && !r.ptype.Request?
    && !(r.status / 100 == 1 || r.status == 204 || r.status == 304 || r.flags.skipBody)
    && !(r.flags.chunked || r.clen != NO_LENGTH)
  }

  /** `http_should_keep_alive` */
  predicate ShouldKeepAlive(r: Regs) {
    && (if r.major > 0 && r.minor > 0 then !r.flags.close else r.flags.keepAlive)
    && !MessageNeedsEof(r)
  }

  /** The strict `NEW_MESSAGE()`. */
  function NewMessage(r: Regs): State {
    if ShouldKeepAlive(r) then (if r.ptype.Request? then StartReq else StartRes) else Dead
  }

  /** `http_parser_init` */
  function InitRegs(t: ParserType): Regs {
    Regs(t, NO_FLAGS,
         match t { case Request => StartReq case Response => StartRes case Both => StartReqOrRes },
         General, 0, false, 0, 0, 0, 0, DELETE, OK, false)
  }
}
