/** The byte automaton inside `http_parser_execute`: what one byte does to the
    registers, which callback it asks for, and whether the byte is consumed. */
module HttpAutomaton {
  import opened Bytes
  import opened HttpTypes

  datatype MarkOp = Keep | Open(kind: DataKind)

  /** `Flush(k, last)`: run the data callback of the mark of kind `k`; the current byte
      belongs to the data iff `last`. */
  datatype Callback = Quiet | Notify(note: Note) | Flush(kind: DataKind, last: bool)

  /** `Advance` is `break`, `Reread` is `goto reexecute`, `Leave` returns after this byte. */
  datatype Move = Advance | Reread | Leave

  datatype Act =
    | Fail(r: Regs, error: Failure)
    | Go(r: Regs, mark: MarkOp, cb: Callback, move: Move)

  function Err(r: Regs, e: Failure): Act {
    Fail(r, e)
  }

  function To(r: Regs, s: State): Act {
    Go(r.(state := s), Keep, Quiet, Advance)
  }

  function Again(r: Regs, s: State): Act {
    Go(r.(state := s), Keep, Quiet, Reread)
  }

  /** `STRICT_CHECK(ch != want)` followed by a change of state. */
  function Expect(r: Regs, ch: char, want: char, s: State): Act {
    if ch != want then Err(r, StrictError) else To(r, s)
  }

  /** `parse_url_char` in strict mode. */
  function ParseUrlChar(s: State, ch: char): State {
    if ch == ' ' || ch == CR || ch == LF || ch == HTAB || ch as int == 12 then Dead
    else if s.ReqSpacesBeforeUrl? then
      if ch == '/' || ch == '*' then ReqPath else if IsAlpha(ch) then ReqSchema else Dead
    else if s.ReqSchema? then
      if IsAlpha(ch) then ReqSchema else if ch == ':' then ReqSchemaSlash else Dead
    else if s.ReqSchemaSlash? then if ch == '/' then ReqSchemaSlashSlash else Dead
    else if s.ReqSchemaSlashSlash? then if ch == '/' then ReqServerStart else Dead
    else if s.ReqServerWithAt? then if ch == '@' then Dead else ParseServerChar(ch)
    else if s.ReqServerStart? || s.ReqServer? then ParseServerChar(ch)
    else if s.ReqPath? then
      if IsUrlChar(ch) then ReqPath
      else if ch == '?' then ReqQueryStringStart
      else if ch == '#' then ReqFragmentStart else Dead
    else if s.ReqQueryStringStart? || s.ReqQueryString? then ParseQueryChar(ch)
    else if s.ReqFragmentStart? then
      if IsUrlChar(ch) || ch == '?' then ReqFragment else if ch == '#' then ReqFragmentStart else Dead
    else if s.ReqFragment? then if IsUrlChar(ch) || ch == '?' || ch == '#' then ReqFragment else Dead
    else Dead
  }

  function ParseServerChar(ch: char): State {
    if ch == '/' then ReqPath
    else if ch == '?' then ReqQueryStringStart
    else if ch == '@' then ReqServerWithAt
    else if IsUserinfoChar(ch) || ch == '[' || ch == ']' then ReqServer
    else Dead
  }

  function ParseQueryChar(ch: char): State {
    if IsUrlChar(ch) || ch == '?' then ReqQueryString else if ch == '#' then ReqFragmentStart else Dead
  }

  /** The method guessed from the first letter of a request. */
  function FirstMethod(ch: char): (m: (bool, Method)) {
    match ch
    case 'A' => (true, ACL) case 'B' => (true, BIND) case 'C' => (true, CONNECT) case 'D' => (true, DELETE)
    case 'G' => (true, GET) case 'H' => (true, HEAD) case 'L' => (true, LOCK) case 'M' => (true, MKCOL)
    case 'N' => (true, NOTIFY) case 'O' => (true, OPTIONS) case 'P' => (true, POST) case 'R' => (true, REPORT)
    case 'S' => (true, SUBSCRIBE) case 'T' => (true, TRACE) case 'U' => (true, UNLOCK)
    case _ => (false, DELETE)
  }

  /** The switch on (method, index, byte) that revises the guess. */
  function ReviseMethod(m: Method, index: nat, ch: char): (bool, Method) {
    if m == POST && index == 1 && ch == 'U' then (true, PUT)
    else if m == POST && index == 1 && ch == 'A' then (true, PATCH)
    else if m == POST && index == 1 && ch == 'R' then (true, PROPFIND)
    else if m == PUT && index == 2 && ch == 'R' then (true, PURGE)
    else if m == CONNECT && index == 1 && ch == 'H' then (true, CHECKOUT)
    else if m == CONNECT && index == 2 && ch == 'P' then (true, COPY)
    else if m == MKCOL && index == 1 && ch == 'O' then (true, MOVE)
    else if m == MKCOL && index == 1 && ch == 'E' then (true, MERGE)
    else if m == MKCOL && index == 1 && ch == '-' then (true, MSEARCH)
    else if m == MKCOL && index == 2 && ch == 'A' then (true, MKACTIVITY)
    else if m == MKCOL && index == 3 && ch == 'A' then (true, MKCALENDAR)
    else if m == SUBSCRIBE && index == 1 && ch == 'E' then (true, SEARCH)
    else if m == SUBSCRIBE && index == 1 && ch == 'O' then (true, SOURCE)
    else if m == REPORT && index == 2 && ch == 'B' then (true, REBIND)
    else if m == PROPFIND && index == 4 && ch == 'P' then (true, PROPPATCH)
    else if m == LOCK && index == 1 && ch == 'I' then (true, LINK)
    else if m == UNLOCK && index == 2 && ch == 'S' then (true, UNSUBSCRIBE)
    else if m == UNLOCK && index == 2 && ch == 'B' then (true, UNBIND)
    else if m == UNLOCK && index == 3 && ch == 'I' then (true, UNLINK)
    else (false, m)
  }

  /** s_dead and the states before a message. */
  function Starts(r: Regs, ch: char): Act {
    if r.state.Dead? then if ch == CR || ch == LF then To(r, Dead) else Err(r, ClosedConnection)
    else if r.state.StartReqOrRes? then
      if ch == CR || ch == LF then To(r, StartReqOrRes)
      else
        var r' := r.(flags := NO_FLAGS, clen := NO_LENGTH);
        if ch == 'H' then Go(r'.(state := ResOrRespH), Keep, Notify(OnMessageBegin), Advance)
        else Again(r'.(ptype := Request), StartReq)
    else if r.state.ResOrRespH? then
      if ch == 'T' then To(r.(ptype := Response), ResHT)
      else if ch != 'E' then Err(r, InvalidConstant)
      else To(r.(ptype := Request, meth := HEAD, index := 2), ReqMethod)
    else if r.state.StartRes? then
      var r' := r.(flags := NO_FLAGS, clen := NO_LENGTH);
      if ch == 'H' then Go(r'.(state := ResH), Keep, Notify(OnMessageBegin), Advance)
      else if ch == CR || ch == LF then Go(r', Keep, Notify(OnMessageBegin), Advance)
      else Err(r', InvalidConstant)
    else   // StartReq
      if ch == CR || ch == LF then To(r, StartReq)
      else
        var r' := r.(flags := NO_FLAGS, clen := NO_LENGTH);
        if !IsAlpha(ch) then Err(r', InvalidMethod)
        else
          var (known, m) := FirstMethod(ch);
          if !known then Err(r'.(meth := DELETE, index := 1), InvalidMethod)
          else Go(r'.(meth := m, index := 1, state := ReqMethod), Keep, Notify(OnMessageBegin), Advance)
  }

  /** The protocol version of a status line or a request line, and the line's end. */
  function Version(r: Regs, ch: char): Act {
    if r.state.ResH? then Expect(r, ch, 'T', ResHT)
    else if r.state.ResHT? then Expect(r, ch, 'T', ResHTT)
    else if r.state.ResHTT? then Expect(r, ch, 'P', ResHTTP)
    else if r.state.ResHTTP? then Expect(r, ch, '/', ResHttpMajor)
    else if r.state.ResHttpMajor? then
      if !IsNum(ch) then Err(r, InvalidVersion) else To(r.(major := DigitValue(ch)), ResHttpDot)
    else if r.state.ResHttpDot? then if ch != '.' then Err(r, InvalidVersion) else To(r, ResHttpMinor)
    else if r.state.ResHttpMinor? then
      if !IsNum(ch) then Err(r, InvalidVersion) else To(r.(minor := DigitValue(ch)), ResHttpEnd)
    else if r.state.ResHttpEnd? then if ch != ' ' then Err(r, InvalidVersion) else To(r, ResFirstStatusCode)
    else if r.state.ReqHttpStart? then
      if ch == 'H' then To(r, ReqHttpH) else if ch == ' ' then To(r, ReqHttpStart) else Err(r, InvalidConstant)
    else if r.state.ReqHttpH? then Expect(r, ch, 'T', ReqHttpHT)
    else if r.state.ReqHttpHT? then Expect(r, ch, 'T', ReqHttpHTT)
    else if r.state.ReqHttpHTT? then Expect(r, ch, 'P', ReqHttpHTTP)
    else if r.state.ReqHttpHTTP? then Expect(r, ch, '/', ReqHttpMajor)
    else if r.state.ReqHttpMajor? then
      if !IsNum(ch) then Err(r, InvalidVersion) else To(r.(major := DigitValue(ch)), ReqHttpDot)
    else if r.state.ReqHttpDot? then if ch != '.' then Err(r, InvalidVersion) else To(r, ReqHttpMinor)
    else if r.state.ReqHttpMinor? then
      if !IsNum(ch) then Err(r, InvalidVersion) else To(r.(minor := DigitValue(ch)), ReqHttpEnd)
    else if r.state.ReqHttpEnd? then
      if ch == CR then To(r, ReqLineAlmostDone)
      else if ch == LF then To(r, HeaderFieldStart) else Err(r, InvalidVersion)
    else if r.state.ResLineAlmostDone? then Expect(r, ch, LF, HeaderFieldStart)
    else if ch != LF then Err(r, LfExpected) else To(r, HeaderFieldStart)   // ReqLineAlmostDone
  }

  /** The status code and the reason phrase of a response. */
  function StatusLine(r: Regs, ch: char): Act {
    if r.state.ResFirstStatusCode? then
      if IsNum(ch) then To(r.(status := DigitValue(ch)), ResStatusCode)
      else if ch == ' ' then To(r, ResFirstStatusCode)
      else Err(r, InvalidStatus)
    else if r.state.ResStatusCode? then
      if IsNum(ch) then
        var r' := r.(status := r.status * 10 + DigitValue(ch));
        if r'.status > 999 then Err(r', InvalidStatus) else To(r', ResStatusCode)
      else if ch == ' ' then To(r, ResStatusStart)
      else if ch == CR || ch == LF then Again(r, ResStatusStart)
      else Err(r, InvalidStatus)
    else if r.state.ResStatusStart? then
      Go(r.(state := ResStatus, index := 0), Open(Status), Quiet,
         if ch == CR || ch == LF then Reread else Advance)
    else   // ResStatus
      if ch == CR then Go(r.(state := ResLineAlmostDone), Keep, Flush(Status, false), Advance)
      else if ch == LF then Go(r.(state := HeaderFieldStart), Keep, Flush(Status, false), Advance)
      else To(r, ResStatus)
  }

  /** The method of a request. */
  function MethodByte(r: Regs, ch: char): Act {
    if ch as int == 0 then Err(r, InvalidMethod)
    else
      var matcher := MethodString(r.meth);
      if ch == ' ' && r.index == |matcher| then To(r.(index := r.index + 1), ReqSpacesBeforeUrl)
      else if r.index < |matcher| && ch == matcher[r.index] then To(r.(index := r.index + 1), ReqMethod)
      else if 'A' <= ch <= 'Z' || ch == '-' then
        var (known, m) := ReviseMethod(r.meth, r.index, ch);
        if known then To(r.(meth := m, index := r.index + 1), ReqMethod) else Err(r, InvalidMethod)
      else Err(r, InvalidMethod)
  }

  /** A byte of the URL, in one of the states of `InUrl`. */
  function UrlByte(r: Regs, ch: char): Act {
    var open := r.state.ReqSchema? || r.state.ReqSchemaSlash? || r.state.ReqSchemaSlashSlash?
                || r.state.ReqServerStart?;
    if ch == ' ' || ch == CR || ch == LF then
      if open then Err(r, InvalidUrl)
      else if ch == ' ' then Go(r.(state := ReqHttpStart), Keep, Flush(Url, false), Advance)
      else Go(r.(major := 0, minor := 9, state := if ch == CR then ReqLineAlmostDone else HeaderFieldStart),
              Keep, Flush(Url, false), Advance)
    else
      var r' := r.(state := ParseUrlChar(r.state, ch));
      if r'.state.Dead? then Err(r', InvalidUrl) else Go(r', Keep, Quiet, Advance)
  }

  /** The first byte of the URL, or a space before it. */
  function UrlStart(r: Regs, ch: char): Act {
    if ch == ' ' then To(r, ReqSpacesBeforeUrl)
    else
      var s := ParseUrlChar(if r.meth == CONNECT then ReqServerStart else ReqSpacesBeforeUrl, ch);
      if s.Dead? then Err(r.(state := Dead), InvalidUrl) else Go(r.(state := s), Open(Url), Quiet, Advance)
  }

  /** The header-name recognizer: state and index after the first byte (lower-cased). */
  function FieldFirst(c: char): HState {
    match c
    case 'c' => C
    case 'p' => MatchingProxyConnection
    case 't' => MatchingTransferEncoding
    case 'u' => MatchingUpgrade
    case _ => General
  }

  /** One more byte of a word that is matched from `index` on. */
  function MatchWord(word: string, index: nat, c: char, here: HState, done: HState, lost: HState): HState {
    if index >= |word| || c != word[index] then lost
    else if index == |word| - 1 then done
    else here
  }

  const CONNECTION: string := "connection"
  const PROXY_CONNECTION: string := "proxy-connection"
  const CONTENT_LENGTH: string := "content-length"
  const TRANSFER_ENCODING: string := "transfer-encoding"
  const UPGRADE: string := "upgrade"
  const CHUNKED: string := "chunked"
  const KEEP_ALIVE: string := "keep-alive"
  const CLOSE: string := "close"

  /** The header-name recognizer on a further token byte; `c` is the byte lower-cased. */
  function FieldNext(h: HState, index: nat, c: char): (HState, nat) {
    if h.General? then (General, index)
    else if h.C? then (if c == 'o' then CO else General, index + 1)
    else if h.CO? then (if c == 'n' then CON else General, index + 1)
    else if h.CON? then
      (if c == 'n' then MatchingConnection else if c == 't' then MatchingContentLength else General, index + 1)
    else if h.MatchingConnection? then (MatchWord(CONNECTION, index + 1, c, h, Connection, General), index + 1)
    else if h.MatchingProxyConnection? then (MatchWord(PROXY_CONNECTION, index + 1, c, h, Connection, General),
                                             index + 1)
    else if h.MatchingContentLength? then (MatchWord(CONTENT_LENGTH, index + 1, c, h, ContentLength, General),
                                           index + 1)
    else if h.MatchingTransferEncoding? then
      (MatchWord(TRANSFER_ENCODING, index + 1, c, h, TransferEncoding, General), index + 1)
    else if h.MatchingUpgrade? then (MatchWord(UPGRADE, index + 1, c, h, Upgrade, General), index + 1)
    else if h.Connection? then (if c != ' ' then General else h, index)
    else if h.ContentLength? then (if c != ' ' then General else h, index)
    else if h.TransferEncoding? then (if c != ' ' then General else h, index)
    else if h.Upgrade? then (if c != ' ' then General else h, index)
    else (h, index)    // "Unknown header_state"
  }

  /** First byte of a header value. */
  function ValueFirst(r: Regs, ch: char): Act {
    var c := Lower(ch);
    var r' := r.(state := HeaderValue, index := 0);
    if r.hstate.Upgrade? then
      Go(r'.(flags := r.flags.(upgrade := true), hstate := General), Open(Value), Quiet, Advance)
    else if r.hstate.TransferEncoding? then
      Go(r'.(hstate := if c == 'c' then MatchingChunked else General), Open(Value), Quiet, Advance)
    else if r.hstate.ContentLength? then
      if !IsNum(ch) then Err(r', InvalidContentLength)
      else if r.flags.contentLength then Err(r', UnexpectedContentLength)
      else Go(r'.(flags := r.flags.(contentLength := true), clen := DigitValue(ch), hstate := ContentLengthNum),
              Open(Value), Quiet, Advance)
    else if r.hstate.Connection? then
      Go(r'.(hstate := if c == 'k' then MatchingKeepAlive
                       else if c == 'c' then MatchingClose
                       else if c == 'u' then MatchingConnUpgrade
                       else ConnToken), Open(Value), Quiet, Advance)
    else if r.hstate.ConnTokenStart? then Go(r', Open(Value), Quiet, Advance)
    else Go(r'.(hstate := General), Open(Value), Quiet, Advance)
  }

  /** `t = content_length * base + digit` in 64 bits. */
  function Shifted(clen: nat, base: nat, digit: nat): nat {
    ((clen * base) % TWO_64 + digit) % TWO_64
  }

  /** A further digit of a Content-Length value. */
  function LengthDigit(r: Regs, ch: char): Regs {
    if ch == ' ' then r.(hstate := ContentLengthWs)
    else if !IsNum(ch) then r.(hstate := ContentLengthNum, errno := InvalidContentLength)
    else if (NO_LENGTH - 10) / 10 < r.clen then r.(hstate := ContentLengthNum, errno := InvalidContentLength)
    else r.(hstate := ContentLengthNum, clen := Shifted(r.clen, 10, DigitValue(ch)))
  }

  /** The list items of a Connection value that are followed by a comma take effect. */
  function ConnectionItem(f: Flags, h: HState): Flags {
    if h.ConnectionKeepAlive? then f.(keepAlive := true)
    else if h.ConnectionClose? then f.(close := true)
    else if h.ConnectionUpgrade? then f.(connUpgrade := true)
    else f
  }

  /** The header-value recognizer on a byte that is neither CR nor LF; it fails by setting `errno`. */
  function ValueNext(r: Regs, ch: char): Regs {
    var c := Lower(ch);
    if r.hstate.General? then r
    else if r.hstate.ContentLength? then if ch == ' ' then r else LengthDigit(r, ch)
    else if r.hstate.ContentLengthNum? then LengthDigit(r, ch)
    else if r.hstate.ContentLengthWs? then if ch == ' ' then r else r.(errno := InvalidContentLength)
    else if r.hstate.MatchingChunked? then
      r.(index := r.index + 1,
         hstate := MatchWord(CHUNKED, r.index + 1, c, MatchingChunked, TransferEncodingChunked, General))
    else if r.hstate.ConnTokenStart? then
      r.(hstate := if c == 'k' then MatchingKeepAlive
                   else if c == 'c' then MatchingClose
                   else if c == 'u' then MatchingConnUpgrade
                   else if IsToken(c) then ConnToken
                   else if c == ' ' || c == HTAB then ConnTokenStart
                   else General)
    else if r.hstate.MatchingKeepAlive? then
      r.(index := r.index + 1,
         hstate := MatchWord(KEEP_ALIVE, r.index + 1, c, MatchingKeepAlive, ConnectionKeepAlive, ConnToken))
    else if r.hstate.MatchingClose? then
      r.(index := r.index + 1,
         hstate := MatchWord(CLOSE, r.index + 1, c, MatchingClose, ConnectionClose, ConnToken))
    else if r.hstate.MatchingConnUpgrade? then
      r.(index := r.index + 1,
         hstate := MatchWord(UPGRADE, r.index + 1, c, MatchingConnUpgrade, ConnectionUpgrade, ConnToken))
    else if r.hstate.ConnToken? then if ch == ',' then r.(hstate := ConnTokenStart, index := 0) else r
    else if r.hstate.TransferEncodingChunked? then if ch != ' ' then r.(hstate := General) else r
    else if r.hstate.ConnectionKeepAlive? then ValueItemEnd(r, ch)
    else if r.hstate.ConnectionClose? then ValueItemEnd(r, ch)
    else if r.hstate.ConnectionUpgrade? then ValueItemEnd(r, ch)
    else r.(hstate := General)
  }

  function ValueItemEnd(r: Regs, ch: char): Regs {
    if ch == ',' then r.(flags := ConnectionItem(r.flags, r.hstate), hstate := ConnTokenStart, index := 0)
    else if ch != ' ' then r.(hstate := ConnToken)
    else r
  }

  /** "Finished the header": the flags its value stands for. */
  function FinishHeader(r: Regs): Flags {
    if r.hstate.TransferEncodingChunked? then r.flags.(chunked := true) else ConnectionItem(r.flags, r.hstate)
  }

  /** The name of a header field. */
  function Names(r: Regs, ch: char): Act {
    if r.state.HeaderFieldStart? then
      if ch == CR then To(r, HeadersAlmostDone)
      else if ch == LF then Again(r, HeadersAlmostDone)
      else if !IsToken(ch) then Err(r, InvalidHeaderToken)
      else Go(r.(index := 0, state := HeaderField, hstate := FieldFirst(TokenLower(ch))),
              Open(Field), Quiet, Advance)
    else   // HeaderField
      if IsToken(ch) then
        var (h, i) := FieldNext(r.hstate, r.index, TokenLower(ch));
        To(r.(hstate := h, index := i), HeaderField)
      else if ch == ':' then Go(r.(state := HeaderValueDiscardWs), Keep, Flush(Field, false), Advance)
      else Err(r, InvalidHeaderToken)
  }

  /** The value of a header field. `skip` says that the current call is already inside the
      search for the end of a value of no interest, which looks at no other byte. */
  function Values(r: Regs, ch: char, skip: bool): Act {
    if ch == CR then Go(r.(state := HeaderAlmostDone), Keep, Flush(Value, false), Advance)
    else if ch == LF then Go(r.(state := HeaderAlmostDone), Keep, Flush(Value, false), Reread)
    else if !r.lenient && !skip && !IsHeaderChar(ch) then Err(r, InvalidHeaderToken)
    else
      var r' := ValueNext(r, ch);
      if r'.errno != OK then Fail(r', InvalidContentLength) else Go(r', Keep, Quiet, Advance)
  }

  /** The space before a header value, and the line ends around it. */
  function ValueEdges(r: Regs, ch: char): Act {
    if r.state.HeaderValueDiscardWs? then
      if ch == ' ' || ch == HTAB then To(r, HeaderValueDiscardWs)
      else if ch == CR then To(r, HeaderValueDiscardWsAlmostDone)
      else if ch == LF then To(r, HeaderValueDiscardLws)
      else ValueFirst(r, ch)
    else if r.state.HeaderValueStart? then ValueFirst(r, ch)
    else if r.state.HeaderAlmostDone? then if ch != LF then Err(r, LfExpected) else To(r, HeaderValueLws)
    else if r.state.HeaderValueLws? then
      if ch == ' ' || ch == HTAB then Again(r, HeaderValueStart)
      else Again(r.(flags := FinishHeader(r)), HeaderFieldStart)
    else if r.state.HeaderValueDiscardWsAlmostDone? then Expect(r, ch, LF, HeaderValueDiscardLws)
    else   // HeaderValueDiscardLws
      if ch == ' ' || ch == HTAB then To(r, HeaderValueDiscardWs)
      else Go(r.(flags := FinishHeader(r), state := HeaderFieldStart), Open(Value), Flush(Value, false), Reread)
  }

  /** The value of `upgrade` when the headers are complete. */
  predicate UpgradeAsked(r: Regs) {
    if r.flags.upgrade && r.flags.connUpgrade then r.ptype.Request? || r.status == 101 else r.meth == CONNECT
  }

  /** s_headers_almost_done */
  function HeadersEnd(r: Regs, ch: char): Act {
    if ch != LF then Err(r, StrictError)
    else if r.flags.trailing then Go(r.(state := MessageDone), Keep, Notify(OnChunkComplete), Reread)
    else if r.flags.chunked && r.flags.contentLength then Err(r, UnexpectedContentLength)
    else Go(r.(state := HeadersDone, upgrade := UpgradeAsked(r)), Keep, Notify(OnHeadersComplete), Reread)
  }

  predicate HasBody(r: Regs) {
    r.flags.chunked || (r.clen > 0 && r.clen != NO_LENGTH)
  }

  /** s_headers_done: what kind of body follows. */
  function BodyStart(r: Regs, ch: char): Act {
    if ch != LF then Err(r, StrictError)
    else
      var over := r.(state := NewMessage(r));
      if r.upgrade && (r.meth == CONNECT || r.flags.skipBody || !HasBody(r))
      then Go(over, Keep, Notify(OnMessageComplete), Leave)
      else if r.flags.skipBody then Go(over, Keep, Notify(OnMessageComplete), Advance)
      else if r.flags.chunked then To(r, ChunkSizeStart)
      else if r.clen == 0 then Go(over, Keep, Notify(OnMessageComplete), Advance)
      else if r.clen != NO_LENGTH then To(r, BodyIdentity)
      else if !MessageNeedsEof(r) then Go(over, Keep, Notify(OnMessageComplete), Advance)
      else To(r, BodyIdentityEof)
  }

  /** The size line of a chunk. */
  function ChunkSizes(r: Regs, ch: char): Act {
    if r.state.ChunkSizeStart? then
      if Unhex(ch) == -1 then Err(r, InvalidChunkSize) else To(r.(clen := Unhex(ch)), ChunkSize)
    else if r.state.ChunkSize? then
      if ch == CR then To(r, ChunkSizeAlmostDone)
      else if Unhex(ch) == -1 then
        if ch == ';' || ch == ' ' then To(r, ChunkParameters) else Err(r, InvalidChunkSize)
      else if (NO_LENGTH - 16) / 16 < r.clen then Err(r, InvalidContentLength)
      else To(r.(clen := Shifted(r.clen, 16, Unhex(ch))), ChunkSize)
    else if r.state.ChunkParameters? then if ch == CR then To(r, ChunkSizeAlmostDone) else To(r, ChunkParameters)
    else   // ChunkSizeAlmostDone
      if ch != LF then Err(r, StrictError)
      else if r.clen == 0
      then Go(r.(flags := r.flags.(trailing := true), state := HeaderFieldStart), Keep, Notify(OnChunkHeader), Advance)
      else Go(r.(state := ChunkData), Keep, Notify(OnChunkHeader), Advance)
  }

  /** The data of a chunk and the line end behind it. */
  function ChunkBody(r: Regs, ch: char): Act {
    if r.state.ChunkData? then
      if r.clen == 0 then To(r, ChunkData)   // excluded by an assertion of the parser
      else Go(r.(clen := r.clen - 1, state := if r.clen == 1 then ChunkDataAlmostDone else ChunkData),
              Open(Body), Quiet, Advance)
    else if r.state.ChunkDataAlmostDone? then
      if ch != CR then Err(r, StrictError)
      else Go(r.(state := ChunkDataDone), Keep, Flush(Body, false), Advance)
    else   // ChunkDataDone
      if ch != LF then Err(r, StrictError)
      else Go(r.(state := ChunkSizeStart), Keep, Notify(OnChunkComplete), Advance)
  }

  /** The states of a body without chunks, and s_message_done. */
  function PlainBody(r: Regs): Act {
    if r.state.BodyIdentity? then
      if r.clen == 0 then To(r, BodyIdentity)   // excluded by an assertion of the parser
      else if r.clen == 1
      then Go(r.(clen := 0, state := MessageDone), Open(Body), Flush(Body, true), Reread)
      else Go(r.(clen := r.clen - 1), Open(Body), Quiet, Advance)
    else if r.state.BodyIdentityEof? then Go(r, Open(Body), Quiet, Advance)
    else   // MessageDone
      Go(r.(state := NewMessage(r)), Keep, Notify(OnMessageComplete), if r.upgrade then Leave else Advance)
  }

  /** The part of the switch that handles a state. */
  datatype Part = InStart | InVersion | InStatus | InMethod | BeforeUrl | WithinUrl | InName | InValue | AroundValue
    | AtHeadersEnd | AtBodyStart | InChunkSize | InChunkBody | InBody

  function PartOf(s: State): Part {
    if s.Dead? || s.StartReqOrRes? || s.ResOrRespH? || s.StartRes? || s.StartReq? then InStart
    else if s.ResFirstStatusCode? || s.ResStatusCode? || s.ResStatusStart? || s.ResStatus? then InStatus
    else if s.ReqMethod? then InMethod
    else if s.ReqSpacesBeforeUrl? then BeforeUrl
    else if s.ReqSchema? || s.ReqSchemaSlash? || s.ReqSchemaSlashSlash? || s.ReqServerStart?
            || s.ReqServer? || s.ReqServerWithAt? || s.ReqPath? || s.ReqQueryStringStart?
            || s.ReqQueryString? || s.ReqFragmentStart? || s.ReqFragment? then WithinUrl
    else if s.HeaderFieldStart? || s.HeaderField? then InName
    else if s.HeaderValue? then InValue
    else if s.HeaderValueDiscardWs? || s.HeaderValueDiscardWsAlmostDone? || s.HeaderValueDiscardLws?
            || s.HeaderValueStart? || s.HeaderAlmostDone? || s.HeaderValueLws? then AroundValue
    else if s.HeadersAlmostDone? then AtHeadersEnd
    else if s.HeadersDone? then AtBodyStart
    else if s.ChunkSizeStart? || s.ChunkSize? || s.ChunkParameters? || s.ChunkSizeAlmostDone? then InChunkSize
    else if s.ChunkData? || s.ChunkDataAlmostDone? || s.ChunkDataDone? then InChunkBody
    else if s.BodyIdentity? || s.BodyIdentityEof? || s.MessageDone? then InBody
    else InVersion
  }

  /** One pass through the switch of `http_parser_execute`. */
  function Transition(r: Regs, ch: char, skip: bool): Act {
    match PartOf(r.state)
    case InStart => Starts(r, ch)
    case InVersion => Version(r, ch)
    case InStatus => StatusLine(r, ch)
    case InMethod => MethodByte(r, ch)
    case BeforeUrl => UrlStart(r, ch)
    case WithinUrl => UrlByte(r, ch)
    case InName => Names(r, ch)
    case InValue => Values(r, ch, skip)
    case AroundValue => ValueEdges(r, ch)
    case AtHeadersEnd => HeadersEnd(r, ch)
    case AtBodyStart => BodyStart(r, ch)
    case InChunkSize => ChunkSizes(r, ch)
    case InChunkBody => ChunkBody(r, ch)
    case InBody => PlainBody(r)
  }

  /** How many times a byte can still be read again without being consumed. */
  function Rank(s: State): nat {
    if s.StartReqOrRes? then 1
    else if s.ResStatusCode? then 2
    else if s.ResStatusStart? then 1
    else if s.HeaderFieldStart? then 2
    else if s.HeadersAlmostDone? then 1
    else if s.HeaderValue? then 1
    else if s.HeaderValueLws? then 3
    else if s.HeaderValueDiscardLws? then 3
    else if s.BodyIdentity? then 1
    else 0
  }

  /** What a byte of the protocol version can do. */
  lemma VersionShape(r: Regs, ch: char)
    requires PartOf(r.state).InVersion?
    ensures var a := Version(r, ch);
            a.Go? ==> && a == Go(r.(state := a.r.state, major := a.r.major, minor := a.r.minor), Keep, Quiet, Advance)
                      && (a.r.state.HeaderFieldStart? || a.r.state.ResFirstStatusCode? || PartOf(a.r.state).InVersion?)
  {
    if InProtocolName(r.state) {
      VersionName(r, ch);
    } else {
      VersionNumber(r, ch);
    }
    hide Version, PartOf;
  }

  /** Within the name of the protocol. */
  predicate InProtocolName(s: State) {
    s.ResH? || s.ResHT? || s.ResHTT? || s.ResHTTP? || s.ReqHttpStart? || s.ReqHttpH? || s.ReqHttpHT? || s.ReqHttpHTT?
    || s.ReqHttpHTTP?
  }

  lemma VersionName(r: Regs, ch: char)
    requires InProtocolName(r.state)
    ensures var a := Version(r, ch); a.Go? ==> a == To(r, a.r.state) && PartOf(a.r.state).InVersion?
  {
  }

  lemma VersionNumber(r: Regs, ch: char)
    requires PartOf(r.state).InVersion? && !InProtocolName(r.state)
    ensures var a := Version(r, ch);
            a.Go? ==> && a == Go(r.(state := a.r.state, major := a.r.major, minor := a.r.minor), Keep, Quiet, Advance)
                      && (a.r.state.HeaderFieldStart? || a.r.state.ResFirstStatusCode? || PartOf(a.r.state).InVersion?)
  {
    if r.state.ResHttpMajor? || r.state.ResHttpMinor? || r.state.ReqHttpMajor? || r.state.ReqHttpMinor? {
    } else {
    }
  }

  /** What a byte of the URL can do. */
  lemma UrlByteShape(r: Regs, ch: char)
    requires PartOf(r.state).WithinUrl?
    ensures var a := UrlByte(r, ch);
            a.Go? ==> && a.mark.Keep? && a.move.Advance?
                      && a.r == r.(state := a.r.state, major := a.r.major, minor := a.r.minor)
                      && if ch == ' ' || ch == CR || ch == LF
                         then && a.cb == Flush(Url, false)
                              && (a.r.state.ReqHttpStart? || a.r.state.ReqLineAlmostDone?
                                  || a.r.state.HeaderFieldStart?)
                         else a.cb.Quiet? && PartOf(a.r.state).WithinUrl?
  {
    var s := ParseUrlChar(r.state, ch);
    assert s.Dead? || PartOf(s).WithinUrl?;
  }

  /** `goto reexecute` is never taken for ever: it lowers the rank of the state. */
  lemma RereadLowersRank(r: Regs, ch: char, skip: bool)
    ensures var a := Transition(r, ch, skip);
            a.Go? && a.move.Reread? ==> Rank(a.r.state) < Rank(r.state)
  {
    match PartOf(r.state)
    case InVersion => VersionShape(r, ch);
    case WithinUrl => UrlByteShape(r, ch);
    case InMethod => assert MethodByte(r, ch).Go? ==> MethodByte(r, ch).move.Advance?;
    case InName =>
    case InValue =>
    case AroundValue => assert ValueFirst(r, ch).Go? ==> ValueFirst(r, ch).move.Advance?;
    case InStart =>
    case _ =>
  }

  /** The bytes at which the header size starts again from 0. */
  predicate Resets(s: State, ch: char) {
    ch == LF && (s.HeadersDone? || s.ChunkSizeAlmostDone? || s.ChunkDataDone?)
  }

  lemma EarlyPartsStartNoChunk(r: Regs, ch: char)
    ensures Starts(r, ch).Go? ==> !Starts(r, ch).r.state.ChunkSizeStart?
    ensures StatusLine(r, ch).Go? ==> !StatusLine(r, ch).r.state.ChunkSizeStart?
    ensures MethodByte(r, ch).Go? ==> !MethodByte(r, ch).r.state.ChunkSizeStart?
    ensures UrlStart(r, ch).Go? ==> !UrlStart(r, ch).r.state.ChunkSizeStart?
  {
    hide ReviseMethod, MethodString, FirstMethod;
    UrlStartsNoChunk(r, ch);
  }

  lemma UrlStartsNoChunk(r: Regs, ch: char)
    ensures UrlStart(r, ch).Go? ==> !UrlStart(r, ch).r.state.ChunkSizeStart?
  {
    assert !ParseUrlChar(ReqServerStart, ch).ChunkSizeStart? && !ParseUrlChar(ReqSpacesBeforeUrl, ch).ChunkSizeStart?;
  }

  lemma ValuesStartNoChunk(r: Regs, ch: char, skip: bool)
    ensures ValueNext(r, ch).state == r.state
    ensures ValueFirst(r, ch).Go? ==> ValueFirst(r, ch).r.state.HeaderValue?
  {
    hide Lower, IsToken, Shifted;
  }

  lemma HeaderPartsStartNoChunk(r: Regs, ch: char, skip: bool)
    ensures PartOf(r.state).InName? && Names(r, ch).Go? ==> !Names(r, ch).r.state.ChunkSizeStart?
    ensures PartOf(r.state).InValue? && Values(r, ch, skip).Go? ==> !Values(r, ch, skip).r.state.ChunkSizeStart?
    ensures PartOf(r.state).AroundValue? && ValueEdges(r, ch).Go? ==> !ValueEdges(r, ch).r.state.ChunkSizeStart?
  {
    hide ValueNext, ValueFirst, FieldFirst, FieldNext, FinishHeader;
    ValuesStartNoChunk(r, ch, skip);
  }

  lemma LatePartsStartChunk(r: Regs, ch: char)
    ensures PartOf(r.state).AtHeadersEnd? && HeadersEnd(r, ch).Go? ==> !HeadersEnd(r, ch).r.state.ChunkSizeStart?
    ensures PartOf(r.state).InBody? && PlainBody(r).Go? ==> !PlainBody(r).r.state.ChunkSizeStart?
    ensures PartOf(r.state).AtBodyStart? && BodyStart(r, ch).Go? && BodyStart(r, ch).r.state.ChunkSizeStart?
            ==> Resets(r.state, ch)
    ensures PartOf(r.state).InChunkSize? && ChunkSizes(r, ch).Go? && ChunkSizes(r, ch).r.state.ChunkSizeStart?
            ==> Resets(r.state, ch)
    ensures PartOf(r.state).InChunkBody? && ChunkBody(r, ch).Go? && ChunkBody(r, ch).r.state.ChunkSizeStart?
            ==> Resets(r.state, ch)
  {
    assert !NewMessage(r).ChunkSizeStart?;
    hide NewMessage, Unhex;
  }

  /** A chunk size is only ever read when the header size has just been reset. */
  lemma StartsChunk(r: Regs, ch: char, skip: bool)
    ensures var a := Transition(r, ch, skip); a.Go? && a.r.state.ChunkSizeStart? ==> Resets(r.state, ch)
  {
    hide Starts, Version, StatusLine, MethodByte, UrlStart, UrlByte, Names, Values, ValueEdges, HeadersEnd, BodyStart,
      ChunkSizes, ChunkBody, PlainBody;
    EarlyPartsStartNoChunk(r, ch);
    HeaderPartsStartNoChunk(r, ch, skip);
    LatePartsStartChunk(r, ch);
    match PartOf(r.state)
    case InVersion => VersionShape(r, ch);
    case WithinUrl => UrlByteShape(r, ch);
    case _ =>
  }
}
