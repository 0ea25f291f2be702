/** What every reachable parser keeps, and with it every assertion of `http_parser_execute`
    that depends on the history of the parser. */
module HttpInvariant {
  import opened Bytes
  import opened HttpTypes
  import opened HttpAutomaton
  import opened HttpRun

  /** The longest matcher is "transfer-encoding"; `index` never passes its last letter. */
  const INDEX_MAX: nat := 16

  /** While a name is being recognized: the states that can occur, each with its position. */
  ghost predicate NameState(h: HState, index: nat) {
    if h.General? || h.Connection? || h.ContentLength? || h.TransferEncoding? || h.Upgrade? then index <= INDEX_MAX
    else if h.C? then index == 0
    else if h.CO? then index == 1
    else if h.CON? then index == 2
    else if h.MatchingConnection? then 3 <= index < 9
    else if h.MatchingContentLength? then 3 <= index < 13
    else if h.MatchingProxyConnection? then index < 15
    else if h.MatchingTransferEncoding? then index < 16
    else h.MatchingUpgrade? && index < 6
  }

  /** While a value is being read. */
  ghost predicate ValueState(h: HState, index: nat) {
    if h.ContentLengthNum? || h.ContentLengthWs? || h.ConnTokenStart? then index == 0
    else if h.MatchingChunked? || h.MatchingConnUpgrade? then index < 6
    else if h.MatchingKeepAlive? then index < 9
    else if h.MatchingClose? then index < 4
    else
      && (h.General? || h.TransferEncodingChunked? || h.ConnToken? || h.ConnectionKeepAlive? || h.ConnectionClose?
          || h.ConnectionUpgrade?)
      && index <= INDEX_MAX
  }

  function MethodLength(m: Method): nat {
    match m
    case GET => 3 case PUT => 3 case ACL => 3
    case HEAD => 4 case POST => 4 case COPY => 4 case LOCK => 4 case MOVE => 4 case BIND => 4 case LINK => 4
    case TRACE => 5 case MKCOL => 5 case MERGE => 5 case PATCH => 5 case PURGE => 5
    case DELETE => 6 case SEARCH => 6 case UNLOCK => 6 case REBIND => 6 case UNBIND => 6 case REPORT => 6
    case NOTIFY => 6 case UNLINK => 6 case SOURCE => 6
    case CONNECT => 7 case OPTIONS => 7
    case PROPFIND => 8 case CHECKOUT => 8 case MSEARCH => 8
    case PROPPATCH => 9 case SUBSCRIBE => 9
    case MKACTIVITY => 10 case MKCALENDAR => 10
    case UNSUBSCRIBE => 11
  }

  lemma MethodLengthIsLength(m: Method)
    ensures |MethodString(m)| == MethodLength(m)
  {
  }

  /** The registers of a reachable parser. */
  ghost predicate RegsOk(r: Regs) {
    && r.clen <= NO_LENGTH
    && r.index <= INDEX_MAX
    && if r.state.ReqMethod? then r.index <= MethodLength(r.meth)
       else if r.state.HeaderField? then NameState(r.hstate, r.index)
       else if r.state.HeaderValue? then ValueState(r.hstate, r.index)
       else if r.state.ResStatusCode? then r.status <= 999
       else if r.state.ChunkSizeStart? || r.state.ChunkDataDone? then r.flags.chunked
       else if r.state.ChunkSize? || r.state.ChunkParameters? || r.state.ChunkSizeAlmostDone?
       then r.flags.chunked && r.clen < NO_LENGTH
       else if r.state.ChunkData? then r.flags.chunked && 0 < r.clen < NO_LENGTH
       else if r.state.ChunkDataAlmostDone? then r.flags.chunked && r.clen == 0
       else r.state.BodyIdentity? ==> 0 < r.clen < NO_LENGTH
  }

  /** The mark that can be set in each state. */
  datatype MarkRule = Always(kind: DataKind) | Sometimes(kind: DataKind) | Never

  function RuleOf(s: State): MarkRule {
    if s.HeaderField? then Always(Field)
    else if s.HeaderValue? then Always(Value)
    else if PartOf(s).WithinUrl? then Always(Url)
    else if s.ResStatus? then Always(Status)
    else if s.BodyIdentity? || s.BodyIdentityEof? || s.ChunkData? || s.ChunkDataAlmostDone? then Sometimes(Body)
    else Never
  }

  ghost predicate SpanOk(s: State, span: Span) {
    match RuleOf(s)
    case Always(k) => span.Marked? && span.kind == k
    case Sometimes(k) => span.Marked? ==> span.kind == k
    case Never => span.NoSpan?
  }

  ghost predicate MOk(m: M) {
    && RegsOk(m.r)
    && m.r.errno == OK
    && SpanOk(m.r.state, m.span)
    && (m.skip ==> m.r.state.HeaderValue? && m.r.hstate.General?)
  }

  /** A parser between calls. */
  ghost predicate SnapshotOk(p: Snapshot) {
    p.r.errno == OK || p.r.errno == Paused ==> RegsOk(p.r)
  }

  /** What the automaton may ask for, in view of the mark that is set. */
  ghost predicate ActOk(s: State, a: Act) {
    a.Go? ==>
      && RegsOk(a.r) && a.r.errno == OK
      && (a.move.Leave? ==> a.cb.Notify?)
      && (a.cb.Flush? && a.cb.last ==> a.mark.Open?)
  }

  /** The mark before the callback, and after it. */
  ghost predicate MarksOk(s: State, a: Act, span: Span) {
    a.Go? ==>
      var marked := OpenMark(span, a.mark);
      && (a.mark.Open? && span.Marked? ==> span.kind == a.mark.kind)
      && (a.cb.Flush? && marked.Marked? ==> marked.kind == a.cb.kind)
      && (a.cb.Notify? ==> marked.NoSpan?)
      && (a.cb.Quiet? && a.mark.Keep? && RuleOf(a.r.state).Sometimes? ==> span.NoSpan?)
      && SpanOk(a.r.state, if a.cb.Flush? then NoSpan else marked)
  }

  lemma StartsOk(r: Regs, ch: char, span: Span)
    requires PartOf(r.state).InStart? && RegsOk(r) && r.errno == OK && SpanOk(r.state, span)
    ensures ActOk(r.state, Starts(r, ch)) && MarksOk(r.state, Starts(r, ch), span)
  {
    hide Starts, ActOk, MarksOk, RegsOk, SpanOk;
    if r.state.StartReq? {
      RequestStartOk(r, ch, span);
    } else {
      OtherStartOk(r, ch, span);
    }
  }

  lemma RequestStartOk(r: Regs, ch: char, span: Span)
    requires r.state.StartReq? && RegsOk(r) && r.errno == OK && SpanOk(r.state, span)
    ensures ActOk(r.state, Starts(r, ch)) && MarksOk(r.state, Starts(r, ch), span)
  {
  }

  lemma OtherStartOk(r: Regs, ch: char, span: Span)
    requires PartOf(r.state).InStart? && !r.state.StartReq? && RegsOk(r) && r.errno == OK && SpanOk(r.state, span)
    ensures ActOk(r.state, Starts(r, ch)) && MarksOk(r.state, Starts(r, ch), span)
  {
    hide FirstMethod;
  }

  lemma VersionOk(r: Regs, ch: char, span: Span)
    requires PartOf(r.state).InVersion? && RegsOk(r) && r.errno == OK && SpanOk(r.state, span)
    ensures ActOk(r.state, Version(r, ch)) && MarksOk(r.state, Version(r, ch), span)
  {
    VersionShape(r, ch);
  }

  lemma StatusLineOk(r: Regs, ch: char, span: Span)
    requires PartOf(r.state).InStatus? && RegsOk(r) && r.errno == OK && SpanOk(r.state, span)
    ensures ActOk(r.state, StatusLine(r, ch)) && MarksOk(r.state, StatusLine(r, ch), span)
  {
    hide StatusLine, RegsOk, ActOk, MarksOk, SpanOk;
    if r.state.ResFirstStatusCode? || r.state.ResStatusCode? {
      StatusCodeOk(r, ch, span);
    } else {
      ReasonOk(r, ch, span);
    }
  }

  lemma StatusCodeOk(r: Regs, ch: char, span: Span)
    requires (r.state.ResFirstStatusCode? || r.state.ResStatusCode?) && RegsOk(r) && r.errno == OK
             && SpanOk(r.state, span)
    ensures ActOk(r.state, StatusLine(r, ch)) && MarksOk(r.state, StatusLine(r, ch), span)
  {
  }

  lemma ReasonOk(r: Regs, ch: char, span: Span)
    requires (r.state.ResStatusStart? || r.state.ResStatus?) && RegsOk(r) && r.errno == OK && SpanOk(r.state, span)
    ensures ActOk(r.state, StatusLine(r, ch)) && MarksOk(r.state, StatusLine(r, ch), span)
  {
    hide ActOk, MarksOk, StatusLine, SpanOk, RegsOk;
    if r.state.ResStatusStart? {
      ReasonStartOk(r, ch, span);
    } else {
      ReasonByteOk(r, ch, span);
    }
  }

  lemma ReasonStartOk(r: Regs, ch: char, span: Span)
    requires r.state.ResStatusStart? && RegsOk(r) && r.errno == OK && SpanOk(r.state, span)
    ensures ActOk(r.state, StatusLine(r, ch)) && MarksOk(r.state, StatusLine(r, ch), span)
  {
  }

  lemma ReasonByteOk(r: Regs, ch: char, span: Span)
    requires r.state.ResStatus? && RegsOk(r) && r.errno == OK && SpanOk(r.state, span)
    ensures ActOk(r.state, StatusLine(r, ch)) && MarksOk(r.state, StatusLine(r, ch), span)
  {
  }

  lemma MethodByteOk(r: Regs, ch: char, span: Span)
    requires PartOf(r.state).InMethod? && RegsOk(r) && r.errno == OK && SpanOk(r.state, span)
    ensures ActOk(r.state, MethodByte(r, ch)) && MarksOk(r.state, MethodByte(r, ch), span)
  {
    MethodLengthIsLength(r.meth);
    RevisedLength(r.meth, r.index, ch);
    hide ReviseMethod, MethodString;
  }

  lemma RevisedLength(m: Method, index: nat, ch: char)
    ensures var (known, m') := ReviseMethod(m, index, ch); known ==> index + 1 <= MethodLength(m')
  {
  }

  lemma UrlStartOk(r: Regs, ch: char, span: Span)
    requires PartOf(r.state).BeforeUrl? && RegsOk(r) && r.errno == OK && SpanOk(r.state, span)
    ensures ActOk(r.state, UrlStart(r, ch)) && MarksOk(r.state, UrlStart(r, ch), span)
  {
  }

  lemma UrlByteOk(r: Regs, ch: char, span: Span)
    requires PartOf(r.state).WithinUrl? && RegsOk(r) && r.errno == OK && SpanOk(r.state, span)
    ensures ActOk(r.state, UrlByte(r, ch)) && MarksOk(r.state, UrlByte(r, ch), span)
  {
    UrlByteShape(r, ch);
  }

  lemma FieldFirstOk(c: char)
    ensures NameState(FieldFirst(c), 0)
  {
  }

  lemma FieldNextOk(h: HState, index: nat, c: char)
    requires NameState(h, index)
    ensures NameState(FieldNext(h, index, c).0, FieldNext(h, index, c).1)
  {
  }

  lemma NamesOk(r: Regs, ch: char, span: Span)
    requires PartOf(r.state).InName? && RegsOk(r) && r.errno == OK && SpanOk(r.state, span)
    ensures ActOk(r.state, Names(r, ch)) && MarksOk(r.state, Names(r, ch), span)
  {
    if r.state.HeaderField? {
      NameByteOk(r, ch, span);
    } else if ch == CR || ch == LF || !IsToken(ch) {
    } else {
      FieldFirstOk(TokenLower(ch));
    }
  }

  lemma NameByteOk(r: Regs, ch: char, span: Span)
    requires r.state.HeaderField? && RegsOk(r) && r.errno == OK && SpanOk(r.state, span)
    ensures ActOk(r.state, Names(r, ch)) && MarksOk(r.state, Names(r, ch), span)
  {
    if IsToken(ch) {
      FieldNextOk(r.hstate, r.index, TokenLower(ch));
    } else if ch == ':' {
    } else {
    }
  }

  lemma LengthDigitOk(r: Regs, ch: char)
    requires RegsOk(r) && r.errno == OK && r.state.HeaderValue? && r.index == 0
    ensures var r' := LengthDigit(r, ch); r'.state == r.state && (r'.errno == OK ==> RegsOk(r'))
  {
  }

  lemma ValueNextOk(r: Regs, ch: char)
    requires RegsOk(r) && r.errno == OK && r.state.HeaderValue?
    ensures var r' := ValueNext(r, ch);
            && r'.state == r.state
            && (r'.errno == OK ==> r'.clen <= NO_LENGTH && ValueState(r'.hstate, r'.index))
  {
    match r.hstate
    case ContentLengthNum => LengthDigitOk(r, ch);
    case MatchingChunked =>
    case MatchingClose =>
    case MatchingKeepAlive =>
    case MatchingConnUpgrade =>
    case _ =>
  }

  lemma ValuesOk(r: Regs, ch: char, skip: bool, span: Span)
    requires PartOf(r.state).InValue? && RegsOk(r) && r.errno == OK && SpanOk(r.state, span)
    ensures ActOk(r.state, Values(r, ch, skip)) && MarksOk(r.state, Values(r, ch, skip), span)
  {
    if ch == CR || ch == LF {
    } else {
      ValueNextOk(r, ch);
    }
  }

  lemma ValueFirstOk(r: Regs, ch: char)
    requires RegsOk(r) && r.errno == OK
    ensures var a := ValueFirst(r, ch);
            a.Go? ==> && a.r.state.HeaderValue? && a.r.errno == OK && RegsOk(a.r)
                      && a.mark == Open(Value) && a.cb.Quiet? && a.move.Advance?
  {
    match r.hstate
    case Upgrade =>
    case TransferEncoding =>
    case ContentLength =>
    case Connection =>
    case ConnTokenStart =>
    case _ =>
  }

  lemma ValueStartOk(r: Regs, ch: char, span: Span)
    requires r.state.HeaderValueDiscardWs? || r.state.HeaderValueStart?
    requires RegsOk(r) && r.errno == OK && SpanOk(r.state, span)
    ensures ActOk(r.state, ValueEdges(r, ch)) && MarksOk(r.state, ValueEdges(r, ch), span)
  {
    hide ValueEdges, RegsOk, ActOk, MarksOk, SpanOk;
    if r.state.HeaderValueDiscardWs? && (ch == ' ' || ch == HTAB || ch == CR || ch == LF) {
      ValueSpaceOk(r, ch, span);
    } else {
      ValueBeginOk(r, ch, span);
    }
  }

  lemma ValueSpaceOk(r: Regs, ch: char, span: Span)
    requires r.state.HeaderValueDiscardWs? && (ch == ' ' || ch == HTAB || ch == CR || ch == LF)
    requires RegsOk(r) && r.errno == OK && SpanOk(r.state, span)
    ensures ActOk(r.state, ValueEdges(r, ch)) && MarksOk(r.state, ValueEdges(r, ch), span)
  {
    hide ValueFirst, FinishHeader;
  }

  lemma ValueBeginOk(r: Regs, ch: char, span: Span)
    requires r.state.HeaderValueStart?
             || (r.state.HeaderValueDiscardWs? && !(ch == ' ' || ch == HTAB || ch == CR || ch == LF))
    requires RegsOk(r) && r.errno == OK && SpanOk(r.state, span)
    ensures ActOk(r.state, ValueEdges(r, ch)) && MarksOk(r.state, ValueEdges(r, ch), span)
  {
    ValueFirstOk(r, ch);
    assert ValueEdges(r, ch) == ValueFirst(r, ch);
    hide ValueFirst, ValueEdges;
  }

  lemma ValueEndOk(r: Regs, ch: char, span: Span)
    requires r.state.HeaderValueLws? || r.state.HeaderValueDiscardLws?
    requires RegsOk(r) && r.errno == OK && SpanOk(r.state, span)
    ensures ActOk(r.state, ValueEdges(r, ch)) && MarksOk(r.state, ValueEdges(r, ch), span)
  {
    if ch == ' ' || ch == HTAB {
    } else {
    }
  }

  lemma ValueEdgesOk(r: Regs, ch: char, span: Span)
    requires PartOf(r.state).AroundValue? && RegsOk(r) && r.errno == OK && SpanOk(r.state, span)
    ensures ActOk(r.state, ValueEdges(r, ch)) && MarksOk(r.state, ValueEdges(r, ch), span)
  {
    if r.state.HeaderValueDiscardWs? || r.state.HeaderValueStart? {
      ValueStartOk(r, ch, span);
    } else if r.state.HeaderValueLws? || r.state.HeaderValueDiscardLws? {
      ValueEndOk(r, ch, span);
    } else {
      hide ValueFirst, FinishHeader;
    }
  }

  lemma HeadersEndOk(r: Regs, ch: char, span: Span)
    requires PartOf(r.state).AtHeadersEnd? && RegsOk(r) && r.errno == OK && SpanOk(r.state, span)
    ensures ActOk(r.state, HeadersEnd(r, ch)) && MarksOk(r.state, HeadersEnd(r, ch), span)
  {
    if ch != LF || r.flags.trailing {
    } else if r.flags.chunked && r.flags.contentLength {
    } else {
    }
  }

  lemma BodyStartOk(r: Regs, ch: char, span: Span)
    requires PartOf(r.state).AtBodyStart? && RegsOk(r) && r.errno == OK && SpanOk(r.state, span)
    ensures ActOk(r.state, BodyStart(r, ch)) && MarksOk(r.state, BodyStart(r, ch), span)
  {
    var a := BodyStart(r, ch);
    if a.Go? && a.cb.Notify? {
      assert a.r == r.(state := NewMessage(r));
    } else if a.Go? {
      assert a.r.state.ChunkSizeStart? || a.r.state.BodyIdentity? || a.r.state.BodyIdentityEof?;
    }
  }

  /** A digit that passes the conservative limit is added without wrapping around. */
  lemma ShiftedExact(clen: nat, base: nat, digit: nat)
    requires base == 10 || base == 16
    requires clen <= (NO_LENGTH - base) / base && digit < base
    ensures Shifted(clen, base, digit) == clen * base + digit < NO_LENGTH
  {
  }

  lemma ChunkDigitOk(r: Regs, ch: char)
    requires r.state.ChunkSize? && RegsOk(r) && r.errno == OK
    ensures var a := ChunkSizes(r, ch);
            a.Go? ==> && a == Go(a.r, Keep, Quiet, Advance) && RegsOk(a.r) && a.r.errno == OK
                      && (a.r.state.ChunkSize? || a.r.state.ChunkSizeAlmostDone? || a.r.state.ChunkParameters?)
  {
    if ch == CR || Unhex(ch) == -1 || (NO_LENGTH - 16) / 16 < r.clen {
    } else {
      ShiftedExact(r.clen, 16, Unhex(ch));
    }
  }

  lemma ChunkSizesOk(r: Regs, ch: char, span: Span)
    requires PartOf(r.state).InChunkSize? && RegsOk(r) && r.errno == OK && SpanOk(r.state, span)
    ensures ActOk(r.state, ChunkSizes(r, ch)) && MarksOk(r.state, ChunkSizes(r, ch), span)
  {
    hide ChunkSizes, RegsOk, ActOk, MarksOk, SpanOk;
    if r.state.ChunkSize? {
      ChunkDigitsOk(r, ch, span);
    } else if r.state.ChunkSizeAlmostDone? {
      ChunkLineOk(r, ch, span);
    } else {
      ChunkEdgeOk(r, ch, span);
    }
  }

  lemma ChunkDigitsOk(r: Regs, ch: char, span: Span)
    requires r.state.ChunkSize? && RegsOk(r) && r.errno == OK && SpanOk(r.state, span)
    ensures ActOk(r.state, ChunkSizes(r, ch)) && MarksOk(r.state, ChunkSizes(r, ch), span)
  {
    ChunkDigitOk(r, ch);
    hide ChunkSizes, RegsOk;
  }

  lemma ChunkEdgeOk(r: Regs, ch: char, span: Span)
    requires (r.state.ChunkSizeStart? || r.state.ChunkParameters?) && RegsOk(r) && r.errno == OK
             && SpanOk(r.state, span)
    ensures ActOk(r.state, ChunkSizes(r, ch)) && MarksOk(r.state, ChunkSizes(r, ch), span)
  {
    hide ChunkSizes, ActOk, MarksOk, RegsOk, SpanOk;
    if r.state.ChunkSizeStart? {
      FirstChunkDigitOk(r, ch, span);
    } else {
      ChunkParametersOk(r, ch, span);
    }
  }

  lemma FirstChunkDigitOk(r: Regs, ch: char, span: Span)
    requires r.state.ChunkSizeStart? && RegsOk(r) && r.errno == OK && SpanOk(r.state, span)
    ensures ActOk(r.state, ChunkSizes(r, ch)) && MarksOk(r.state, ChunkSizes(r, ch), span)
  {
    hide Shifted;
  }

  lemma ChunkParametersOk(r: Regs, ch: char, span: Span)
    requires r.state.ChunkParameters? && RegsOk(r) && r.errno == OK && SpanOk(r.state, span)
    ensures ActOk(r.state, ChunkSizes(r, ch)) && MarksOk(r.state, ChunkSizes(r, ch), span)
  {
    hide Shifted, Unhex;
  }

  lemma ChunkLineOk(r: Regs, ch: char, span: Span)
    requires r.state.ChunkSizeAlmostDone? && RegsOk(r) && r.errno == OK && SpanOk(r.state, span)
    ensures ActOk(r.state, ChunkSizes(r, ch)) && MarksOk(r.state, ChunkSizes(r, ch), span)
  {
    hide Shifted, Unhex;
  }

  lemma ChunkBodyOk(r: Regs, ch: char, span: Span)
    requires PartOf(r.state).InChunkBody? && RegsOk(r) && r.errno == OK && SpanOk(r.state, span)
    ensures ActOk(r.state, ChunkBody(r, ch)) && MarksOk(r.state, ChunkBody(r, ch), span)
  {
    hide ChunkBody, RegsOk, ActOk, MarksOk, SpanOk;
    if r.state.ChunkData? {
      ChunkDataOk(r, ch, span);
    } else if r.state.ChunkDataAlmostDone? {
      ChunkCrOk(r, ch, span);
    } else {
      ChunkLfOk(r, ch, span);
    }
  }

  lemma ChunkDataOk(r: Regs, ch: char, span: Span)
    requires r.state.ChunkData? && RegsOk(r) && r.errno == OK && SpanOk(r.state, span)
    ensures ActOk(r.state, ChunkBody(r, ch)) && MarksOk(r.state, ChunkBody(r, ch), span)
  {
  }

  lemma ChunkCrOk(r: Regs, ch: char, span: Span)
    requires r.state.ChunkDataAlmostDone? && RegsOk(r) && r.errno == OK && SpanOk(r.state, span)
    ensures ActOk(r.state, ChunkBody(r, ch)) && MarksOk(r.state, ChunkBody(r, ch), span)
  {
    hide ChunkBody;
    ChunkEndActs(r, ch);
  }

  /** The line end behind the data of a chunk. */
  lemma ChunkEndActs(r: Regs, ch: char)
    ensures r.state.ChunkDataAlmostDone? ==>
              ChunkBody(r, ch) == if ch != CR then Err(r, StrictError)
                                  else Go(r.(state := ChunkDataDone), Keep, Flush(Body, false), Advance)
    ensures r.state.ChunkDataDone? ==>
              ChunkBody(r, ch) == if ch != LF then Err(r, StrictError)
                                  else Go(r.(state := ChunkSizeStart), Keep, Notify(OnChunkComplete), Advance)
  {
  }

  lemma ChunkLfOk(r: Regs, ch: char, span: Span)
    requires r.state.ChunkDataDone? && RegsOk(r) && r.errno == OK && SpanOk(r.state, span)
    ensures ActOk(r.state, ChunkBody(r, ch)) && MarksOk(r.state, ChunkBody(r, ch), span)
  {
    hide ChunkBody;
    ChunkEndActs(r, ch);
  }

  lemma BodyByteOk(r: Regs, span: Span)
    requires r.state.BodyIdentity? && RegsOk(r) && r.errno == OK && SpanOk(r.state, span)
    ensures ActOk(r.state, PlainBody(r)) && MarksOk(r.state, PlainBody(r), span)
  {
    if r.clen == 1 {
    } else {
    }
  }

  lemma DoneByteOk(r: Regs, span: Span)
    requires (r.state.MessageDone? || r.state.BodyIdentityEof?) && RegsOk(r) && r.errno == OK && SpanOk(r.state, span)
    ensures ActOk(r.state, PlainBody(r)) && MarksOk(r.state, PlainBody(r), span)
  {
    hide ShouldKeepAlive;
  }

  lemma PlainBodyOk(r: Regs, span: Span)
    requires PartOf(r.state).InBody? && RegsOk(r) && r.errno == OK && SpanOk(r.state, span)
    ensures ActOk(r.state, PlainBody(r)) && MarksOk(r.state, PlainBody(r), span)
  {
    hide RegsOk, SpanOk, ActOk, MarksOk, PlainBody;
    if r.state.BodyIdentity? {
      BodyByteOk(r, span);
    } else {
      DoneByteOk(r, span);
    }
  }

  lemma TransitionOk(m: M, ch: char)
    requires MOk(m)
    ensures ActOk(m.r.state, Transition(m.r, ch, m.skip)) && MarksOk(m.r.state, Transition(m.r, ch, m.skip), m.span)
  {
    hide RegsOk, SpanOk, ActOk, MarksOk, Starts, Version, StatusLine, MethodByte, UrlStart, UrlByte, Names, Values,
      ValueEdges, HeadersEnd, BodyStart, ChunkSizes, ChunkBody, PlainBody;
    match PartOf(m.r.state)
    case InStart => StartsOk(m.r, ch, m.span);
    case InVersion => VersionOk(m.r, ch, m.span);
    case InStatus => StatusLineOk(m.r, ch, m.span);
    case InMethod => MethodByteOk(m.r, ch, m.span);
    case BeforeUrl => UrlStartOk(m.r, ch, m.span);
    case WithinUrl => UrlByteOk(m.r, ch, m.span);
    case InName => NamesOk(m.r, ch, m.span);
    case InValue => ValuesOk(m.r, ch, m.skip, m.span);
    case AroundValue => ValueEdgesOk(m.r, ch, m.span);
    case AtHeadersEnd => HeadersEndOk(m.r, ch, m.span);
    case AtBodyStart => BodyStartOk(m.r, ch, m.span);
    case InChunkSize => ChunkSizesOk(m.r, ch, m.span);
    case InChunkBody => ChunkBodyOk(m.r, ch, m.span);
    case InBody => PlainBodyOk(m.r, m.span);
  }

  /** Where a call may stop without an error, nothing is pending. */
  ghost predicate StepOk(s: Step) {
    if s.Halt? then s.m.r.errno in {OK, Paused} ==> RegsOk(s.m.r) && s.m.span.NoSpan? && SpanOk(s.m.r.state, NoSpan)
    else MOk(s.m)
  }

  lemma ApplyOk(h: Handler, m: M, a: Act, ch: char)
    requires MOk(m) && ActOk(m.r.state, a) && MarksOk(m.r.state, a, m.span)
    requires a.Go? && Searching(m.r, a.r) ==> a.r.hstate.General?
    ensures StepOk(Apply(h, m, a, ch))
  {
    hide RegsOk;
    if a.Go? {
      var m' := MovedTo(m, a.r, a.mark, ch);
      match a.cb
      case Quiet => assert Fire(h, m', a.cb, ch) == m';
      case Notify(n) => FireNoteOk(h, m', n);
      case Flush(k, last) => FireDataOk(h, m', k, if last then [ch] else "");
    }
  }

  lemma FireNoteOk(h: Handler, m: M, n: Note)
    requires RegsOk(m.r)
    ensures var m' := FireNote(h, m, n);
            RegsOk(m'.r) && m'.r.state == m.r.state && m'.r.hstate == m.r.hstate && m'.span == m.span
            && m'.skip == m.skip
  {
  }

  lemma FireDataOk(h: Handler, m: M, k: DataKind, more: string)
    requires RegsOk(m.r) && m.r.errno == OK
    ensures var m' := FireData(h, m, k, more);
            RegsOk(m'.r) && m'.r.state == m.r.state && m'.r.hstate == m.r.hstate && m'.skip == m.skip
            && (m'.r.errno != OK ==> m'.span.NoSpan?)
            && (if m.span.Marked? && m.span.kind == k then m'.span.NoSpan? else m' == m)
  {
  }

  /** A byte keeps the invariant, and no assertion of the parser can fail. */
  lemma DoOk(h: Handler, m: M, ch: char)
    requires MOk(m)
    ensures StepOk(Do(h, m, ch))
  {
    TransitionOk(m, ch);
    ApplyOk(h, m, Transition(m.r, ch, m.skip), ch);
  }

  lemma BeginOk(r: Regs, trace: seq<Event>)
    requires RegsOk(r) && r.errno == OK
    ensures MOk(Begin(r, trace))
  {
  }

  /** The loop over a buffer keeps the invariant. */
  lemma {:induction false} RunOk(h: Handler, m: M, data: string, i: nat)
    requires MOk(m) && i <= |data|
    ensures var o := Run(h, m, data, i);
            if o.stopped
            then o.m.r.errno in {OK, Paused} ==> RegsOk(o.m.r) && o.m.span.NoSpan? && SpanOk(o.m.r.state, NoSpan)
            else MOk(o.m)
    decreases |data| - i, Rank(m.r.state)
  {
    hide MOk, RegsOk, SpanOk;
    if i < |data| {
      var s := Do(h, m, data[i]);
      DoOk(h, m, data[i]);
      hide Do;
      match s
      case Next(m') => RunOk(h, m', data, i + 1);
      case Again(m') => RunOk(h, m', data, i);
      case Halt(_, _) =>
    }
  }

  /** Every call of the parser keeps the invariant. */
  lemma CallOk(h: Handler, p: Snapshot, data: string)
    requires SnapshotOk(p)
    ensures SnapshotOk(Call(h, p, data).p)
  {
    if p.r.errno != OK {
    } else if data == "" {
      FireNoteOk(h, Begin(p.r, p.trace), OnMessageComplete);
    } else {
      BeginOk(p.r, p.trace);
      RunOk(h, Begin(p.r, p.trace), data, 0);
      var o := Run(h, Begin(p.r, p.trace), data, 0);
      hide Run, RegsOk, SpanOk;
      if !o.stopped {
        FinishOk(h, o.m);
      }
    }
  }

  lemma FinishOk(h: Handler, m: M)
    requires MOk(m)
    ensures RegsOk(Finish(h, m).r) && Finish(h, m).span.NoSpan? && m.trace <= Finish(h, m).trace
    ensures Finish(h, m).r == m.r.(errno := Finish(h, m).r.errno)
  {
    if m.span.Marked? {
      FireDataOk(h, m, m.span.kind, "");
    }
  }
}
