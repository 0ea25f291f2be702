/** The bytes that are errors: in each state exactly these, with exactly this error. A refused byte is not consumed and
    makes no callback. */
module HttpRejects {
  import opened Bytes
  import opened HttpTypes
  import opened HttpAutomaton
  import opened HttpInvariant
  import opened HttpStream
  import opened HttpHeaders
  import opened HttpMethods

  /** The byte is no error. */
  predicate Accepted(s: Abs, ch: char) {
    ADo(s, ch).AHalt? ==> ADo(s, ch).s.r.errno == OK
  }

  /** The byte is this error. */
  predicate Refused(s: Abs, ch: char, e: Errno) {
    var x := ADo(s, ch); x.AHalt? && !x.used && x.s.r.errno == e && x.s.log == s.log
  }

  /** Exactly the bytes for which `fine` holds are no error. */
  predicate Exactly(s: Abs, ch: char, fine: bool, e: Errno) {
    if fine then Accepted(s, ch) else Refused(s, ch, e)
  }

  predicate IsLineEnd(ch: char) {
    ch == CR || ch == LF
  }

  // ----- the first line -----

  /** Some method begins with the byte. */
  ghost predicate BeginsMethod(ch: char) {
    exists m :: MethodString(m)[..1] == [ch]
  }

  lemma FirstLetters(ch: char)
    ensures FirstMethod(ch).0 <==> BeginsMethod(ch)
    ensures FirstMethod(ch).0 ==> IsAlpha(ch)
  {
    if FirstMethod(ch).0 {
      assert MethodString(FirstMethod(ch).1)[..1] == [ch];
    }
    if m :| MethodString(m)[..1] == [ch] {
      FirstLetterOf(m);
    }
  }

  lemma FirstLetterOf(m: Method)
    ensures FirstMethod(MethodString(m)[0]).0
  {
  }

  lemma BeforeMessages(s: Abs, ch: char)
    requires s.r.errno == OK
    ensures s.r.state.Dead? ==> Exactly(s, ch, IsLineEnd(ch), ClosedConnection)
    ensures s.r.state.StartReqOrRes? ==> Accepted(s, ch)
    ensures s.r.state.ResOrRespH? ==> Exactly(s, ch, ch == 'T' || ch == 'E', InvalidConstant)
    ensures s.r.state.StartRes? ==> Exactly(s, ch, IsLineEnd(ch) || ch == 'H', InvalidConstant)
    ensures s.r.state.StartReq? ==> Exactly(s, ch, IsLineEnd(ch) || BeginsMethod(ch), InvalidMethod)
  {
    FirstLetters(ch);
    hide BeginsMethod, FirstMethod, Put;
  }

  /** The name of the protocol. */
  lemma InProtocol(s: Abs, ch: char)
    requires s.r.errno == OK
    ensures s.r.state.ReqHttpStart? ==> Exactly(s, ch, ch == 'H' || ch == ' ', InvalidConstant)
    ensures s.r.state.ReqHttpH? || s.r.state.ReqHttpHT? ==> Exactly(s, ch, ch == 'T', StrictError)
    ensures s.r.state.ReqHttpHTT? ==> Exactly(s, ch, ch == 'P', StrictError)
    ensures s.r.state.ReqHttpHTTP? ==> Exactly(s, ch, ch == '/', StrictError)
  {
  }

  lemma InReplyProtocol(s: Abs, ch: char)
    requires s.r.errno == OK
    ensures s.r.state.ResH? || s.r.state.ResHT? ==> Exactly(s, ch, ch == 'T', StrictError)
    ensures s.r.state.ResHTT? ==> Exactly(s, ch, ch == 'P', StrictError)
    ensures s.r.state.ResHTTP? ==> Exactly(s, ch, ch == '/', StrictError)
  {
  }

  /** The version. */
  lemma InVersionNumbers(s: Abs, ch: char)
    requires s.r.errno == OK
    ensures s.r.state.ResHttpMajor? || s.r.state.ResHttpMinor? ==> Exactly(s, ch, '0' <= ch <= '9', InvalidVersion)
    ensures s.r.state.ReqHttpMajor? || s.r.state.ReqHttpMinor? ==> Exactly(s, ch, '0' <= ch <= '9', InvalidVersion)
  {
  }

  /** The dot in it. */
  lemma AtDots(s: Abs, ch: char)
    requires s.r.errno == OK
    ensures s.r.state.ResHttpDot? || s.r.state.ReqHttpDot? ==> Exactly(s, ch, ch == '.', InvalidVersion)
  {
  }

  /** What stands behind it, and the end of the line. */
  lemma BehindVersions(s: Abs, ch: char)
    requires s.r.errno == OK
    ensures s.r.state.ResHttpEnd? ==> Exactly(s, ch, ch == ' ', InvalidVersion)
    ensures s.r.state.ReqHttpEnd? ==> Exactly(s, ch, IsLineEnd(ch), InvalidVersion)
    ensures s.r.state.ReqLineAlmostDone? ==> Exactly(s, ch, ch == LF, LfExpected)
    ensures s.r.state.ResLineAlmostDone? ==> Exactly(s, ch, ch == LF, StrictError)
  {
  }

  /** A status of more than 999 is refused at the digit that makes it so. */
  lemma InStatusLine(s: Abs, ch: char)
    requires s.r.errno == OK
    ensures s.r.state.ResFirstStatusCode? ==> Exactly(s, ch, '0' <= ch <= '9' || ch == ' ', InvalidStatus)
    ensures s.r.state.ResStatusCode? ==>
              Exactly(s, ch, IsLineEnd(ch) || ch == ' '
                             || ('0' <= ch <= '9' && 10 * s.r.status + (ch as int - '0' as int) <= 999), InvalidStatus)
    ensures s.r.state.ResStatusStart? || s.r.state.ResStatus? ==> Accepted(s, ch)
  {
    hide Put;
  }

  /** What a target may go on with. */
  predicate UrlByteFits(s: State, ch: char) {
    var server := ('a' <= ch <= 'z' || 'A' <= ch <= 'Z' || '0' <= ch <= '9' || ch in "-_.!~*'()%;:&=+$,[]/?");
    if s.ReqSpacesBeforeUrl? then ch == '/' || ch == '*' || 'a' <= ch <= 'z' || 'A' <= ch <= 'Z'
    else if s.ReqSchema? then ch == ':' || 'a' <= ch <= 'z' || 'A' <= ch <= 'Z'
    else if s.ReqSchemaSlash? || s.ReqSchemaSlashSlash? then ch == '/'
    else if s.ReqServerWithAt? then server
    else if s.ReqServerStart? || s.ReqServer? then server || ch == '@'
    else '!' <= ch <= '~'
  }

  lemma UrlBytes(s: State, ch: char)
    requires PartOf(s).WithinUrl? || s.ReqSpacesBeforeUrl?
    ensures !ParseUrlChar(s, ch).Dead? <==> UrlByteFits(s, ch)
  {
    if s.ReqServerStart? || s.ReqServer? || s.ReqServerWithAt? {
      ServerBytes(ch);
      hide ParseServerChar;
    } else {
      hide ParseServerChar;
    }
  }

  lemma ServerBytes(ch: char)
    ensures !ParseServerChar(ch).Dead? <==>
            'a' <= ch <= 'z' || 'A' <= ch <= 'Z' || '0' <= ch <= '9' || ch in "-_.!~*'()%;:&=+$,[]/?" || ch == '@'
  {
  }

  /** Within the target; where it may not end, a space and a line end are refused. */
  lemma InTarget(s: Abs, ch: char)
    requires s.r.errno == OK
    ensures s.r.state.ReqSpacesBeforeUrl? ==>
              Exactly(s, ch, ch == ' ' || UrlByteFits(if s.r.meth == CONNECT then ReqServerStart
                                                      else ReqSpacesBeforeUrl,
                                                      ch), InvalidUrl)
    ensures PartOf(s.r.state).WithinUrl? ==>
              var unfinished := s.r.state.ReqSchema? || s.r.state.ReqSchemaSlash? || s.r.state.ReqSchemaSlashSlash?
                                || s.r.state.ReqServerStart?;
              Exactly(s, ch, if ch == ' ' || IsLineEnd(ch) then !unfinished else UrlByteFits(s.r.state, ch), InvalidUrl)
  {
    if s.r.state.ReqSpacesBeforeUrl? {
      UrlBytes(if s.r.meth == CONNECT then ReqServerStart else ReqSpacesBeforeUrl, ch);
    } else if PartOf(s.r.state).WithinUrl? {
      UrlBytes(s.r.state, ch);
    }
    hide ParseUrlChar, UrlByteFits, Put;
  }

  // ----- the headers -----

  lemma InNames(s: Abs, ch: char)
    requires s.r.errno == OK
    ensures s.r.state.HeaderFieldStart? ==> Exactly(s, ch, IsLineEnd(ch) || IsToken(ch), InvalidHeaderToken)
    ensures s.r.state.HeaderField? ==> Exactly(s, ch, ch == ':' || IsToken(ch), InvalidHeaderToken)
  {
    hide IsToken, FieldFirst, FieldNext, Put;
  }

  /** What a length may go on with. */
  predicate LengthGoesOn(r: Regs, ch: char) {
    if r.hstate.ContentLengthWs? then ch == ' '
    else if r.hstate.ContentLength? || r.hstate.ContentLengthNum? then
      ch == ' ' || ('0' <= ch <= '9' && r.clen <= 1844674407370955160)
    else true
  }

  /** Within a value: illegal bytes, and a length that goes on with no digit or becomes too large. */
  lemma InValues(s: Abs, ch: char)
    requires s.r.errno == OK && s.r.state.HeaderValue?
    ensures if IsLineEnd(ch) then Accepted(s, ch)
            else if !s.r.lenient && !IsHeaderChar(ch) then Refused(s, ch, InvalidHeaderToken)
            else Exactly(s, ch, LengthGoesOn(s.r, ch), InvalidContentLength)
  {
    if !IsLineEnd(ch) && (s.r.lenient || IsHeaderChar(ch)) {
      ValueFails(s.r, ch);
    }
    hide ValueNext, LengthGoesOn, IsHeaderChar, Put;
  }

  lemma ValueFails(r: Regs, ch: char)
    requires r.errno == OK
    ensures ValueNext(r, ch).errno == if LengthGoesOn(r, ch) then OK else InvalidContentLength
  {
    hide Lower, IsToken;
  }

  /** In front of a value, and behind it. */
  lemma AroundValues(s: Abs, ch: char)
    requires s.r.errno == OK
    ensures s.r.state.HeaderValueDiscardWs? || s.r.state.HeaderValueStart? ==>
              var skipped := s.r.state.HeaderValueDiscardWs? && (IsLineEnd(ch) || ch == ' ' || ch == HTAB);
              if skipped || !s.r.hstate.ContentLength? then Accepted(s, ch)
              else if !('0' <= ch <= '9') then Refused(s, ch, InvalidContentLength)
              else Exactly(s, ch, !s.r.flags.contentLength, UnexpectedContentLength)
    ensures s.r.state.HeaderAlmostDone? ==> Exactly(s, ch, ch == LF, LfExpected)
    ensures s.r.state.HeaderValueDiscardWsAlmostDone? ==> Exactly(s, ch, ch == LF, StrictError)
    ensures s.r.state.HeaderValueLws? || s.r.state.HeaderValueDiscardLws? ==> Accepted(s, ch)
  {
    if s.r.state.HeaderValueDiscardWs? || s.r.state.HeaderValueStart? {
      FirstFails(s.r, ch);
    }
    hide ValueFirst, FinishHeader, Put;
  }

  lemma FirstFails(r: Regs, ch: char)
    ensures var a := ValueFirst(r, ch);
            if !r.hstate.ContentLength? || ('0' <= ch <= '9' && !r.flags.contentLength)
            then a.Go? && a.r.errno == r.errno && !a.move.Leave?
            else a.Fail? && a.error == if '0' <= ch <= '9' then UnexpectedContentLength else InvalidContentLength
  {
    hide Lower;
  }

  lemma AtEndOfHead(s: Abs, ch: char)
    requires s.r.errno == OK
    ensures s.r.state.HeadersAlmostDone? ==>
              if ch != LF then Refused(s, ch, StrictError)
              else Exactly(s, ch, s.r.flags.trailing || !(s.r.flags.chunked && s.r.flags.contentLength),
                           UnexpectedContentLength)
    ensures s.r.state.HeadersDone? ==> Exactly(s, ch, ch == LF, StrictError)
  {
    hide UpgradeAsked, NewMessage, MessageNeedsEof, Put;
  }

  // ----- bodies -----

  /** A byte of a chunk size; only the first 128 entries of the table say that a byte is no digit. */
  predicate SizeByte(ch: char) {
    '0' <= ch <= '9' || 'a' <= ch <= 'f' || 'A' <= ch <= 'F' || ch as int >= 128
  }

  lemma InSizeLine(s: Abs, ch: char)
    requires s.r.errno == OK
    ensures s.r.state.ChunkSizeStart? ==> Exactly(s, ch, SizeByte(ch), InvalidChunkSize)
    ensures s.r.state.ChunkSize? ==>
              if SizeByte(ch) then Exactly(s, ch, s.r.clen <= 1152921504606846974, InvalidContentLength)
              else Exactly(s, ch, ch == CR || ch == ';' || ch == ' ', InvalidChunkSize)
    ensures s.r.state.ChunkParameters? ==> Accepted(s, ch)
    ensures s.r.state.ChunkSizeAlmostDone? ==> Exactly(s, ch, ch == LF, StrictError)
  {
    assert Unhex(ch) == -1 <==> !SizeByte(ch);
    assert Unhex(CR) == -1;
    hide Unhex, SizeByte, Put, Shifted;
  }

  lemma InBodies(s: Abs, ch: char)
    requires s.r.errno == OK
    ensures s.r.state.ChunkData? || s.r.state.BodyIdentity? || s.r.state.BodyIdentityEof? || s.r.state.MessageDone?
            ==> Accepted(s, ch)
    ensures s.r.state.ChunkDataAlmostDone? ==> Exactly(s, ch, ch == CR, StrictError)
    ensures s.r.state.ChunkDataDone? ==> Exactly(s, ch, ch == LF, StrictError)
  {
    hide NewMessage, Put;
  }

  // ----- the classes of bytes -----

  /** The characters of a token, as in section 3.2.6 of RFC 7230. */
  lemma TokenBytes(ch: char)
    ensures IsToken(ch) <==>
            'a' <= ch <= 'z' || 'A' <= ch <= 'Z' || '0' <= ch <= '9' || ch in "!#$%&'*+-.^_`|~"
    ensures TokenLower(ch) == if 'A' <= ch <= 'Z' then (ch as int + 32) as char else ch
  {
  }

  /** The characters of a value: all but the control characters other than the tab and those that end a line. */
  lemma ValueBytes(ch: char)
    requires !IsLineEnd(ch)
    ensures IsHeaderChar(ch) <==> ch == HTAB || (32 <= ch as int && ch as int != 127)
    ensures 'A' <= ch <= 'Z' ==> Lower(ch) == (ch as int + 32) as char
    ensures 'a' <= ch <= 'z' || ch == '-' ==> Lower(ch) == ch
  {
  }
}
