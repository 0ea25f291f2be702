/** The parser inverts a printer of requests and replies. */
module HttpPrinter {
  import opened Bytes
  import opened HttpTypes
  import opened HttpAutomaton
  import opened HttpInvariant
  import opened HttpRun
  import opened HttpStream
  import opened HttpSegments
  import opened HttpFeed
  import opened HttpNames
  import opened HttpNumbers
  import opened HttpHeaders
  import opened HttpConnection
  import opened HttpFraming
  import opened HttpStart

  /** A part of a body, and what stands behind its size. */
  datatype Chunk = Chunk(data: string, extension: string := "")

  /** The body, and how its end is announced: not at all, by its length, by an empty chunk, or by the end of the
      stream. */
  datatype Payload =
    | Bare
    | Whole(body: string, gap: string := " ")
    | Chunked(chunks: seq<Chunk>, last: string := "", trailers: seq<Header> := [])
    | UntilEnd(body: string)

  datatype Message = Message(start: Start, headers: seq<Header>, payload: Payload, major: Digit := 1, minor: Digit := 1)

  // ----- the printer -----

  /** The header that announces the body. */
  function Framing(p: Payload): seq<Header> {
    match p
    case Whole(body, gap) => [Header("Content-Length", ToDecimal(|body|), gap)]
    case Chunked(_, _, _) => [Header("Transfer-Encoding", "chunked")]
    case Bare => []
    case UntilEnd(_) => []
  }

  function AllHeaders(m: Message): seq<Header> {
    m.headers + Framing(m.payload)
  }

  function PrintChunks(cs: seq<Chunk>): string {
    if cs == [] then "" else ChunkText(cs[0].data, cs[0].extension) + PrintChunks(cs[1..])
  }

  /** The last chunk and what follows it. */
  function PrintTrailer(last: string, trailers: seq<Header>): string {
    SizeLine(0, last) + PrintHeaders(trailers) + CRLF
  }

  function PrintPayload(p: Payload): string {
    match p
    case Bare => ""
    case Whole(body, _) => body
    case Chunked(cs, last, trailers) => PrintChunks(cs) + PrintTrailer(last, trailers)
    case UntilEnd(body) => body
  }

  /** The first line and the header lines. */
  function PrintLines(m: Message): string {
    StartLine(m.start, m.major, m.minor) + PrintHeaders(AllHeaders(m))
  }

  /** The text in front of the body. */
  function PrintHead(m: Message): string {
    PrintLines(m) + CRLF
  }

  predicate IsConnect(m: Message) {
    m.start.Asking? && m.start.meth == CONNECT
  }

  /** The message; a CONNECT request ends with its head, even where it announces a body. */
  function Print(m: Message): string {
    PrintHead(m) + if IsConnect(m) then "" else PrintPayload(m.payload)
  }

  // ----- what may be printed -----

  /** A status that excludes a body. */
  predicate Bodiless(status: nat) {
    status / 100 == 1 || status == 204 || status == 304
  }

  predicate GoodChunk(c: Chunk) {
    0 < |c.data| <= MAX_CHUNK && GoodExtension(c.extension)
  }

  predicate GoodPayload(start: Start, p: Payload) {
    match p
    case Bare => start.Answering? ==> Bodiless(start.status)
    case Whole(body, gap) => |body| <= MAX_LENGTH && Blank(gap)
    case Chunked(cs, last, trailers) =>
      (forall c :: c in cs ==> GoodChunk(c)) && GoodExtension(last) && forall h :: h in trailers ==> GoodHeader(h)
    case UntilEnd(_) => start.Answering? && !Bodiless(start.status)
  }

  predicate Good(m: Message) {
    GoodStart(m.start) && (forall h :: h in m.headers ==> GoodHeader(h)) && GoodPayload(m.start, m.payload)
  }

  // ----- what it means -----

  /** The headers that the parser reads. */
  function Heeded(m: Message): seq<Header> {
    m.headers + if m.payload.Chunked? && !IsConnect(m) then m.payload.trailers else []
  }

  /** The connection stays open behind the message: from version 1.1 on unless a header asks for its end, and before
      only if a header asks for it. */
  ghost predicate StaysOpen(m: Message) {
    if m.major > 0 && m.minor > 0 then !AnyAsks("close", Heeded(m)) else AnyAsks("keep-alive", Heeded(m))
  }

  /** Another protocol follows: behind a CONNECT request, and behind a message whose headers name one and ask for it, in
      a reply if it agrees. */
  ghost predicate Upgrading(m: Message) {
    || IsConnect(m)
    || (AnyNamesProtocol(m.headers) && AnyAsks("upgrade", m.headers) && (m.start.Answering? ==> m.start.status == 101))
  }

  function LengthOf(p: Payload): nat {
    if p.Whole? then |p.body| else NO_LENGTH
  }

  /** `meth` and `status` are what the parser has read before. */
  ghost function HeadEvent(m: Message, meth: Method, status: nat): Event {
    HeadersComplete(if m.start.Asking? then m.start.meth else meth, if m.start.Asking? then status else m.start.status,
                    m.major, m.minor, LengthOf(m.payload), m.payload.Chunked?, Upgrading(m))
  }

  function ChunkEvents(cs: seq<Chunk>): seq<Event> {
    if cs == [] then []
    else [ChunkHeader(|cs[0].data|), Data(Body, cs[0].data), ChunkComplete] + ChunkEvents(cs[1..])
  }

  function PayloadEvents(p: Payload): seq<Event> {
    match p
    case Bare => []
    case Whole(body, _) => if body == "" then [] else [Data(Body, body)]
    case Chunked(cs, _, trailers) => ChunkEvents(cs) + [ChunkHeader(0)] + HeaderEvents(trailers) + [ChunkComplete]
    case UntilEnd(body) => if body == "" then [] else [Data(Body, body)]
  }

  /** The callbacks up to the end of the head. */
  ghost function HeadEvents(m: Message, meth: Method, status: nat): seq<Event> {
    StartEvents(m.start) + HeaderEvents(AllHeaders(m)) + [HeadEvent(m, meth, status)]
  }

  /** The callbacks a message stands for; where the body lasts to the end of the stream, that end is still to come. */
  ghost function Events(m: Message, meth: Method, status: nat): seq<Event> {
    HeadEvents(m, meth, status) + (if IsConnect(m) then [] else PayloadEvents(m.payload))
    + if m.payload.UntilEnd? then [] else [MessageComplete]
  }

  /** The flags behind the header lines. */
  ghost function FlagsOf(m: Message): Flags {
    WithHeaders(NO_FLAGS, m.headers).(chunked := m.payload.Chunked?, contentLength := m.payload.Whole?)
  }

  // ----- the header lines -----

  lemma FramingLine(s: Abs, p: Payload) returns (s': Abs)
    requires s.r.state.HeaderFieldStart? && s.r.errno == OK && ReadyForField(s.log) && !s.r.flags.contentLength
    requires Framing(p) != [] && (p.Whole? ==> |p.body| <= MAX_LENGTH && Blank(p.gap))
    ensures Through(s, PrintHeader(Framing(p)[0]), s')
    ensures LineDone(s, Framing(p)[0],
                     if p.Whole? then s.r.(clen := |p.body|, flags := s.r.flags.(contentLength := true))
                     else s.r.(flags := s.r.flags.(chunked := true)), s')
  {
    hide Through, LineDone, PrintHeader;
    if p.Whole? {
      s' := ThroughLengthLine(s, |p.body|, p.gap);
    } else {
      s' := ThroughEncodingLine(s);
    }
  }

  lemma FramingText(p: Payload)
    requires Framing(p) != []
    ensures var text := PrintHeader(Framing(p)[0]); text != "" && text[0] != ' ' && text[0] != HTAB
  {
    hide ToDecimal;
  }

  /** Behind all header lines; the empty line is still to come. */
  ghost predicate LinesRead(s: Abs, m: Message, s': Abs) {
    && LineEnded(s')
    && Settled(s') == Abs(s.r.(hstate := s'.r.hstate, index := s'.r.index, flags := FlagsOf(m),
                               clen := LengthOf(m.payload)),
                          s.log + HeaderEvents(AllHeaders(m)))
  }

  /** The registers with which the headers begin. */
  ghost predicate Fresh(s: Abs) {
    && s.r.state.HeaderFieldStart? && s.r.errno == OK && ReadyForField(s.log) && s.r.flags == NO_FLAGS
    && s.r.clen == NO_LENGTH
  }

  lemma OnlyTheseFlags(hs: seq<Header>)
    ensures var f := WithHeaders(NO_FLAGS, hs); !f.chunked && !f.contentLength && !f.trailing && !f.skipBody
  {
    WithHeadersMeans(NO_FLAGS, hs);
  }

  lemma SettledKeeps(s: Abs)
    ensures Settled(s).r.hstate == s.r.hstate && Settled(s).r.index == s.r.index
  {
  }

  lemma ThroughAllHeaders(s: Abs, m: Message) returns (s': Abs)
    requires Fresh(s) && (forall h :: h in m.headers ==> GoodHeader(h)) && GoodPayload(m.start, m.payload)
    ensures Through(s, PrintHeaders(AllHeaders(m)), s') && LinesRead(s, m, s')
  {
    hide Through, PrintHeader, PrintHeaders, HeaderEvents, GoodHeader, Settled, WithHeaders, ReadyForField,
         GoodExtension;
    var hs, p := AllHeaders(m), m.payload;
    var s1 := ThroughHeaders(s, m.headers);
    SettledKeeps(s1);
    OnlyTheseFlags(m.headers);
    if Framing(p) == [] {
      s' := s1;
      assert hs == m.headers;
    } else {
      var h := Framing(p)[0];
      assert hs[..|hs| - 1] == m.headers && hs[|hs| - 1] == h;
      SettledNoError(s1);
      s' := FramingLine(Settled(s1), p);
      FramingText(p);
      Settle(s1, PrintHeader(h), s');
      Then(s, PrintHeaders(m.headers), s1, PrintHeader(h), s');
      PrintLast(hs);
      assert s.log + HeaderEvents(m.headers) + HeaderEvents([h]) == s.log + HeaderEvents(hs);
    }
  }

  lemma StartedIsFresh(s: Abs, m: Message)
    requires Waits(s.r, m.start.Asking?)
    ensures Fresh(Started(s, m.start, m.major, m.minor))
  {
    hide MethodString;
    StartLog(s.log, if m.start.Asking? then Url else DataKind.Status,
             if m.start.Asking? then m.start.target else m.start.reason);
  }

  /** The first line and the header lines. */
  lemma ThroughLines(s: Abs, m: Message) returns (s': Abs)
    requires Waits(s.r, m.start.Asking?) && Good(m)
    ensures Through(s, PrintLines(m), s') && LinesRead(Started(s, m.start, m.major, m.minor), m, s')
  {
    hide Through, StartLine, PrintHeaders, HeaderEvents, GoodHeader, GoodPayload, GoodStart, LinesRead, Started, Waits,
         Fresh;
    var s1 := Started(s, m.start, m.major, m.minor);
    ThroughStartLine(s, m.start, m.major, m.minor);
    StartedIsFresh(s, m);
    s' := ThroughAllHeaders(s1, m);
    Then(s, StartLine(m.start, m.major, m.minor), s1, PrintHeaders(AllHeaders(m)), s');
  }

  // ----- the end of the head -----

  /** Nothing of the message follows its head. */
  predicate EndsWithHead(m: Message) {
    IsConnect(m) || m.payload.Bare? || (m.payload.Whole? && m.payload.body == "")
  }

  /** What the parser knows of the message behind its head. */
  ghost predicate KnowsHead(s: Abs, m: Message, r: Regs) {
    && r.errno == OK && r.ptype == s.r.ptype && r.major == m.major && r.minor == m.minor
    && r.meth == (if m.start.Asking? then m.start.meth else s.r.meth)
    && r.status == (if m.start.Asking? then s.r.status else m.start.status)
    && r.upgrade == Upgrading(m)
  }

  /** Behind the empty line that ends the headers. */
  ghost predicate HeadRead(s: Abs, m: Message, s': Abs) {
    && KnowsHead(s, m, s'.r) && s'.r.flags == FlagsOf(m) && s'.r.clen == LengthOf(m.payload)
    && s'.log == s.log + HeadEvents(m, s.r.meth, s.r.status)
                 + (if EndsWithHead(m) then [MessageComplete] else [])
    && if EndsWithHead(m) then s'.r.state == NewMessage(s'.r)
       else match m.payload
            case Whole(_, _) => s'.r.state.BodyIdentity?
            case Chunked(_, _, _) => s'.r.state.ChunkSizeStart?
            case UntilEnd(_) => s'.r.state.BodyIdentityEof?
            case Bare => false
  }

  lemma NewMessageStable(r: Regs, st: State)
    ensures NewMessage(r.(state := st)) == NewMessage(r)
  {
  }

  /** Whether another protocol follows, by the flags. */
  lemma AskedExactly(s: Abs, m: Message, r: Regs)
    requires Waits(s.r, m.start.Asking?)
    requires r.flags == FlagsOf(m) && r.ptype == s.r.ptype
    requires r.meth == if m.start.Asking? then m.start.meth else s.r.meth
    requires m.start.Answering? ==> r.status == m.start.status
    ensures UpgradeAsked(r) <==> Upgrading(m)
  {
    hide AnyAsks, AnyNamesProtocol, WithHeaders;
    WithHeadersMeans(NO_FLAGS, m.headers);
  }

  /** What follows the head, by the registers. */
  lemma BodyKindExactly(m: Message, r: Regs)
    requires GoodPayload(m.start, m.payload) && r.flags.chunked == m.payload.Chunked? && r.clen == LengthOf(m.payload)
    requires r.upgrade == Upgrading(m) && (m.start.Asking? ==> r.meth == m.start.meth && r.ptype.Request?)
    requires m.start.Answering? ==> r.status == m.start.status && r.ptype.Response? && r.meth != CONNECT
    requires !r.flags.skipBody
    ensures BodyKind(r) ==
            if EndsWithHead(m) then if Upgrading(m) then Tunnel else Empty
            else match m.payload
                 case Whole(_, _) => Known
                 case Chunked(_, _, _) => InChunks
                 case UntilEnd(_) => Endless
                 case Bare => Empty
  {
    hide AnyAsks, AnyNamesProtocol, GoodHeader, GoodExtension, Blank;
  }

  lemma HeadIsAnnounced(s: Abs, m: Message, t: Abs)
    requires Waits(s.r, m.start.Asking?) && KnowsHead(s, m, Announced(t).r)
    requires t.r.flags.chunked == m.payload.Chunked? && t.r.clen == LengthOf(m.payload)
    requires t.log == s.log + StartEvents(m.start) + HeaderEvents(AllHeaders(m))
    ensures Announced(t).log == s.log + HeadEvents(m, s.r.meth, s.r.status)
  {
    hide HeaderEvents, AllHeaders, StartEvents, Upgrading, UpgradeAsked, Waits;
    assert Announced(t).log == t.log + [HeadEvent(m, s.r.meth, s.r.status)];
  }

  lemma KnowsBehindLines(s: Abs, m: Message, s': Abs)
    requires Waits(s.r, m.start.Asking?) && LinesRead(Started(s, m.start, m.major, m.minor), m, s')
    ensures var t := Settled(s');
            && KnowsHead(s, m, Announced(t).r) && HeadOver(t.r) && t.r.state.HeaderFieldStart?
            && t.r.flags == FlagsOf(m) && t.r.clen == LengthOf(m.payload)
            && t.log == s.log + StartEvents(m.start) + HeaderEvents(AllHeaders(m))
  {
    hide HeaderEvents, AllHeaders, StartEvents, Upgrading, UpgradeAsked, WithHeaders, Settled, MethodString, LineEnded;
    OnlyTheseFlags(m.headers);
    AskedExactly(s, m, Settled(s').r);
  }

  lemma ThroughHead(s: Abs, m: Message) returns (s': Abs)
    requires Waits(s.r, m.start.Asking?) && Good(m)
    ensures HeadRead(s, m, s') && Ends(s, PrintHead(m), s', EndsWithHead(m) && Upgrading(m))
  {
    hide Ends, ARun, PrintLines, LinesRead, Settled, Started, GoodStart, GoodPayload, Waits, HeadOver, HeadRead, Headed,
         BodyKind, Announced, KnowsHead, Upgrading, EndsWithHead;
    var s1 := ThroughLines(s, m);
    KnowsBehindLines(s, m, s1);
    var t := Settled(s1);
    LinesEnded(s, m, s1);
    ThroughBlank(s1);
    s' := Headed(Announced(t).r, Announced(t).log);
    HeadIsAnnounced(s, m, t);
    HeadIsRead(s, m, t);
    ThenEnds(s, PrintLines(m), s1, CRLF, s', EndsWithHead(m) && Upgrading(m));
  }

  lemma LinesEnded(s: Abs, m: Message, s1: Abs)
    requires LinesRead(Started(s, m.start, m.major, m.minor), m, s1)
    ensures LineEnded(s1)
  {
  }

  lemma HeadIsRead(s: Abs, m: Message, t: Abs)
    requires Waits(s.r, m.start.Asking?) && GoodPayload(m.start, m.payload) && KnowsHead(s, m, Announced(t).r)
    requires t.r.flags == FlagsOf(m) && t.r.clen == LengthOf(m.payload)
    requires Announced(t).log == s.log + HeadEvents(m, s.r.meth, s.r.status)
    ensures var a := Announced(t);
            HeadRead(s, m, Headed(a.r, a.log)) && (BodyKind(a.r).Tunnel? <==> EndsWithHead(m) && Upgrading(m))
  {
    hide GoodPayload, HeadEvents, Upgrading, UpgradeAsked, WithHeaders, BodyKind, NewMessage, EventOf, EndsWithHead;
    var a := Announced(t);
    OnlyTheseFlags(m.headers);
    BodyKindExactly(m, a.r);
    NewMessageStable(a.r, NewMessage(a.r));
    NewIsNoData(s, m);
    BareEnds(m);
  }

  lemma BareEnds(m: Message)
    ensures m.payload.Bare? ==> EndsWithHead(m)
  {
  }

  lemma NewIsNoData(s: Abs, m: Message)
    ensures var log := s.log + HeadEvents(m, s.r.meth, s.r.status); Put(log, MessageComplete) == log + [MessageComplete]
  {
  }

  // ----- the body -----

  lemma PutChunk(log: seq<Event>, c: string)
    ensures Put(Put(Put(log, ChunkHeader(|c|)), Data(Body, c)), ChunkComplete) ==
            log + [ChunkHeader(|c|), Data(Body, c), ChunkComplete]
  {
    assert log + [ChunkHeader(|c|)] + [Data(Body, c)] + [ChunkComplete] ==
           log + [ChunkHeader(|c|), Data(Body, c), ChunkComplete];
  }

  lemma ChunkEventsMore(log: seq<Event>, cs: seq<Chunk>)
    requires cs != []
    ensures log + [ChunkHeader(|cs[0].data|), Data(Body, cs[0].data), ChunkComplete] + ChunkEvents(cs[1..]) == log
            + ChunkEvents(cs)
  {
    var more := ChunkEvents(cs[1..]);
    hide ChunkEvents;
    assert log + [ChunkHeader(|cs[0].data|), Data(Body, cs[0].data), ChunkComplete] + more
           == log + ([ChunkHeader(|cs[0].data|), Data(Body, cs[0].data), ChunkComplete] + more);
  }

  /** Reading chunks. */
  lemma {:induction false} ThroughChunks(s: Abs, cs: seq<Chunk>) returns (s': Abs)
    requires s.r.state.ChunkSizeStart? && forall c :: c in cs ==> GoodChunk(c)
    ensures Through(s, PrintChunks(cs), s') && s'.log == s.log + ChunkEvents(cs) && s'.r == s.r.(clen := s'.r.clen)
    decreases |cs|
  {
    hide Through, Put, ChunkText;
    if cs == [] {
      Nothing(s);
      s' := s;
    } else {
      var c := cs[0];
      assert c in cs && GoodChunk(c);
      ThroughChunk(s, c.data, c.extension);
      PutChunk(s.log, c.data);
      var s1 := Abs(s.r.(clen := 0), s.log + [ChunkHeader(|c.data|), Data(Body, c.data), ChunkComplete]);
      s' := ThroughChunks(s1, cs[1..]);
      Then(s, ChunkText(c.data, c.extension), s1, PrintChunks(cs[1..]), s');
      ChunkEventsMore(s.log, cs);
    }
  }

  lemma TrailerLog(log: seq<Event>, hs: seq<Header>)
    ensures var l := log + [ChunkHeader(0)] + HeaderEvents(hs);
            Put(Put(l, ChunkComplete), MessageComplete) ==
            log + ([ChunkHeader(0)] + HeaderEvents(hs) + [ChunkComplete]) + [MessageComplete]
  {
    hide HeaderEvents;
  }

  lemma TrailingStays(f: Flags, hs: seq<Header>)
    requires f.trailing
    ensures WithHeaders(f, hs).trailing
  {
    WithHeadersMeans(f, hs);
  }

  /** Reading the last chunk and the headers behind it. */
  lemma ThroughTrailerLines(s: Abs, last: string, hs: seq<Header>) returns (s': Abs)
    requires s.r.state.ChunkSizeStart? && s.r.errno == OK && GoodExtension(last)
    requires forall h :: h in hs ==> GoodHeader(h)
    ensures Through(s, SizeLine(0, last) + PrintHeaders(hs), s') && LineEnded(s')
    ensures var t := Settled(s');
            && t.r.state.HeaderFieldStart? && t.log == s.log + [ChunkHeader(0)] + HeaderEvents(hs)
            && t.r == s.r.(clen := 0, state := HeaderFieldStart, hstate := t.r.hstate, index := t.r.index,
                           flags := WithHeaders(s.r.flags.(trailing := true), hs))
  {
    hide Through, SizeLine, PrintHeaders, HeaderEvents, GoodExtension, GoodHeader, WithHeaders, Settled, LineEnded;
    ThroughSize(s, 0, last);
    var s1 := SizeRead(s, 0);
    s' := ThroughHeaders(s1, hs);
    Then(s, SizeLine(0, last), s1, PrintHeaders(hs), s');
  }

  /** The empty line behind them. */
  lemma ThroughTrailer(s: Abs, last: string, hs: seq<Header>) returns (s': Abs)
    requires s.r.state.ChunkSizeStart? && s.r.errno == OK && GoodExtension(last)
    requires forall h :: h in hs ==> GoodHeader(h)
    ensures Ends(s, PrintTrailer(last, hs), s', s.r.upgrade)
    ensures s'.log == s.log + ([ChunkHeader(0)] + HeaderEvents(hs) + [ChunkComplete]) + [MessageComplete]
    ensures s'.r.state == NewMessage(s'.r)
    ensures s'.r == s.r.(clen := 0, state := s'.r.state, hstate := s'.r.hstate, index := s'.r.index,
                         flags := WithHeaders(s.r.flags.(trailing := true), hs))
  {
    hide Through, Ends, SizeLine, PrintHeaders, HeaderEvents, GoodExtension, GoodHeader, WithHeaders, Settled,
         LineEnded,
      NewMessage, Put;
    var s1 := ThroughTrailerLines(s, last, hs);
    TrailingStays(s.r.flags.(trailing := true), hs);
    ThroughTrailerEnd(s1);
    s' := Trailed(Settled(s1));
    ThenEnds(s, SizeLine(0, last) + PrintHeaders(hs), s1, CRLF, s', s.r.upgrade);
    TrailerLog(s.log, hs);
    NewMessageStable(Settled(s1).r.(state := MessageDone), s'.r.state);
  }

  /** Behind the whole message: the parser waits for the next one, or has nothing more to read, or reads a body up to
      the end of the stream. */
  ghost predicate MessageRead(s: Abs, m: Message, s': Abs) {
    && s'.log == s.log + Events(m, s.r.meth, s.r.status) && KnowsHead(s, m, s'.r)
    && s'.r.state == if m.payload.UntilEnd? then BodyIdentityEof
                     else if StaysOpen(m) then if m.start.Asking? then StartReq else StartRes
                     else Dead
  }

  lemma PutBody(log: seq<Event>, b: string)
    requires log != [] && !log[|log| - 1].Data?
    ensures Put(log, Data(Body, b)) == log + [Data(Body, b)]
    ensures Put(Put(log, Data(Body, b)), MessageComplete) == log + [Data(Body, b)] + [MessageComplete]
  {
  }

  /** All that the parser has seen. */
  ghost predicate PayloadRead(s: Abs, m: Message, s': Abs) {
    && KnowsHead(s, m, s'.r) && s'.log == s.log + Events(m, s.r.meth, s.r.status)
    && if m.payload.UntilEnd? then s'.r.state.BodyIdentityEof?
       else && s'.r.state == NewMessage(s'.r) && s'.r.flags.chunked == m.payload.Chunked?
            && (s'.r.clen == NO_LENGTH ==> m.payload.Bare? || m.payload.Chunked?)
            && (s'.r.flags.close <==> AnyAsks("close", Heeded(m)))
            && (s'.r.flags.keepAlive <==> AnyAsks("keep-alive", Heeded(m))) && !s'.r.flags.skipBody
            && (m.payload.Bare? ==> s'.r.clen == NO_LENGTH)
  }

  lemma AnyAsksBoth(word: string, a: seq<Header>, b: seq<Header>)
    ensures AnyAsks(word, a + b) <==> AnyAsks(word, a) || AnyAsks(word, b)
  {
    hide IsConnection, Asks;
    assert forall h :: h in a + b <==> h in a || h in b;
  }

  /** The flags behind the headers that the parser reads. */
  lemma HeededFlags(m: Message, f: Flags)
    requires f == if m.payload.Chunked? && !IsConnect(m)
                  then WithHeaders(FlagsOf(m).(trailing := true), m.payload.trailers) else FlagsOf(m)
    ensures f.chunked == m.payload.Chunked? && !f.skipBody
    ensures f.close <==> AnyAsks("close", Heeded(m))
    ensures f.keepAlive <==> AnyAsks("keep-alive", Heeded(m))
  {
    hide AnyAsks, AnyNamesProtocol, WithHeaders;
    WithHeadersMeans(NO_FLAGS, m.headers);
    if m.payload.Chunked? && !IsConnect(m) {
      WithHeadersMeans(FlagsOf(m).(trailing := true), m.payload.trailers);
      AnyAsksBoth("close", m.headers, m.payload.trailers);
      AnyAsksBoth("keep-alive", m.headers, m.payload.trailers);
    } else {
      assert Heeded(m) == m.headers;
    }
  }

  /** A message that ends with its head. */
  lemma NothingToRead(s: Abs, m: Message, s1: Abs)
    requires HeadRead(s, m, s1) && EndsWithHead(m) && Good(m)
    ensures PayloadRead(s, m, s1)
  {
    hide HeadEvents, NewMessage, AnyAsks, WithHeaders, FlagsOf, KnowsHead, GoodStart, GoodHeader, GoodExtension;
    HeededFlags(m, s1.r.flags);
  }

  lemma HeadEventsLast(m: Message, meth: Method, status: nat, log: seq<Event>)
    ensures var l := log + HeadEvents(m, meth, status); l != [] && !l[|l| - 1].Data?
  {
    hide HeaderEvents, StartEvents;
  }

  lemma ThroughWhole(s: Abs, m: Message, s1: Abs) returns (s': Abs)
    requires HeadRead(s, m, s1) && m.payload.Whole? && !EndsWithHead(m)
    ensures Ends(s1, m.payload.body, s', Upgrading(m)) && PayloadRead(s, m, s')
  {
    hide Ends, Put, NewMessage, HeadEvents, AnyAsks, WithHeaders, FlagsOf, Upgrading;
    var b := m.payload.body;
    ThroughBody(s1, b);
    s' := Completed(s1.r.(clen := 0), Put(s1.log, Data(Body, b)));
    HeadEventsLast(m, s.r.meth, s.r.status, s.log);
    PutBody(s1.log, b);
    NewMessageStable(s1.r.(clen := 0), s'.r.state);
    HeededFlags(m, s1.r.flags);
  }

  lemma ThroughInChunks(s: Abs, m: Message, s1: Abs) returns (s': Abs)
    requires HeadRead(s, m, s1) && m.payload.Chunked? && !EndsWithHead(m) && GoodPayload(m.start, m.payload)
    ensures Ends(s1, PrintPayload(m.payload), s', Upgrading(m)) && PayloadRead(s, m, s')
  {
    hide Ends, Through, Put, NewMessage, HeadEvents, AnyAsks, WithHeaders, FlagsOf, Upgrading, PrintChunks,
         PrintTrailer,
      ChunkEvents, HeaderEvents, GoodHeader, GoodExtension, GoodChunk;
    var p := m.payload;
    var s2 := ThroughChunks(s1, p.chunks);
    s' := ThroughTrailer(s2, p.last, p.trailers);
    ThenEnds(s1, PrintChunks(p.chunks), s2, PrintTrailer(p.last, p.trailers), s', Upgrading(m));
    HeededFlags(m, s'.r.flags);
    ChunkedLog(s1.log, p);
  }

  lemma ChunkedLog(log: seq<Event>, p: Payload)
    requires p.Chunked?
    ensures log + ChunkEvents(p.chunks) + ([ChunkHeader(0)] + HeaderEvents(p.trailers) + [ChunkComplete])
            + [MessageComplete] == log + PayloadEvents(p) + [MessageComplete]
  {
    hide ChunkEvents, HeaderEvents;
    assert log + ChunkEvents(p.chunks) + ([ChunkHeader(0)] + HeaderEvents(p.trailers) + [ChunkComplete])
           == log + (ChunkEvents(p.chunks) + [ChunkHeader(0)] + HeaderEvents(p.trailers) + [ChunkComplete]);
  }

  lemma ThroughUntilEnd(s: Abs, m: Message, s1: Abs) returns (s': Abs)
    requires HeadRead(s, m, s1) && m.payload.UntilEnd? && !EndsWithHead(m)
    ensures Through(s1, m.payload.body, s') && PayloadRead(s, m, s')
  {
    hide Through, Put, NewMessage, HeadEvents, WithHeaders, FlagsOf, Upgrading;
    var b := m.payload.body;
    HeadEventsLast(m, s.r.meth, s.r.status, s.log);
    if b == "" {
      Nothing(s1);
      s' := s1;
    } else {
      ThroughEndless(s1, b);
      PutBody(s1.log, b);
      s' := Abs(s1.r, Put(s1.log, Data(Body, b)));
    }
  }

  /** Where the body lasts to the end of the stream, no other protocol follows. */
  lemma EndlessIsPlain(m: Message)
    requires GoodPayload(m.start, m.payload) && m.payload.UntilEnd?
    ensures !Upgrading(m) && !EndsWithHead(m)
  {
  }

  /** What follows the head. */
  lemma ThroughPayload(s: Abs, m: Message, s1: Abs) returns (s': Abs)
    requires HeadRead(s, m, s1) && GoodPayload(m.start, m.payload) && !EndsWithHead(m)
    ensures Ends(s1, PrintPayload(m.payload), s', Upgrading(m)) && PayloadRead(s, m, s')
  {
    hide HeadRead, PayloadRead, Upgrading, PrintChunks, PrintTrailer, EndsWithHead, ARun;
    if m.payload.Whole? {
      s' := ThroughWhole(s, m, s1);
    } else if m.payload.Chunked? {
      s' := ThroughInChunks(s, m, s1);
    } else if m.payload.UntilEnd? {
      s' := ThroughUntilEnd(s, m, s1);
      EndlessIsPlain(m);
    } else {
      BareEnds(m);
      assert false;
    }
  }

  /** The parser waits for the next message exactly if the connection stays open. */
  lemma StateBehind(s: Abs, m: Message, s': Abs)
    requires PayloadRead(s, m, s') && Waits(s.r, m.start.Asking?) && GoodPayload(m.start, m.payload)
    ensures MessageRead(s, m, s')
  {
    hide Events, AnyAsks, Upgrading, Heeded, GoodHeader, GoodExtension, Blank;
  }

  lemma PrintedParts(m: Message)
    ensures Print(m) == if EndsWithHead(m) then PrintHead(m) else PrintHead(m) + PrintPayload(m.payload)
  {
    hide PrintHead, PrintChunks, PrintTrailer;
    assert PrintHead(m) + "" == PrintHead(m);
  }

  /** One message, from its first byte to its last; if another protocol follows, the parser stops there. */
  lemma ThroughMessage(s: Abs, m: Message) returns (s': Abs)
    requires Waits(s.r, m.start.Asking?) && Good(m)
    ensures Ends(s, Print(m), s', Upgrading(m)) && MessageRead(s, m, s')
  {
    hide ARun, Print, PrintHead, PrintPayload, HeadRead, PayloadRead, MessageRead, Good, EndsWithHead, Upgrading, Waits;
    var s1 := ThroughHead(s, m);
    PrintedParts(m);
    GoodHasPayload(m);
    if EndsWithHead(m) {
      s' := s1;
      NothingToRead(s, m, s1);
    } else {
      s' := ThroughPayload(s, m, s1);
      ThenEnds(s, PrintHead(m), s1, PrintPayload(m.payload), s', Upgrading(m));
    }
    StateBehind(s, m, s');
  }

  lemma GoodHasPayload(m: Message)
    requires Good(m)
    ensures GoodPayload(m.start, m.payload)
  {
    hide GoodPayload, GoodStart, GoodHeader;
  }

  // ----- a connection -----

  function PrintAll(ms: seq<Message>): string {
    if ms == [] then "" else Print(ms[0]) + PrintAll(ms[1..])
  }

  ghost function AllEvents(ms: seq<Message>, meth: Method, status: nat): seq<Event> {
    if ms == [] then [] else Events(ms[0], meth, status) + AllEvents(ms[1..], meth, status)
  }

  /** Another message can follow on the connection. */
  ghost predicate LeavesOpen(m: Message) {
    StaysOpen(m) && !m.payload.UntilEnd?
  }

  /** Requests or replies on one connection: only the last may close it. */
  ghost predicate Pipeline(ms: seq<Message>, asking: bool) {
    && (forall m :: m in ms ==> Good(m) && m.start.Asking? == asking && !Upgrading(m))
    && forall k :: 0 <= k < |ms| - 1 ==> LeavesOpen(ms[k])
  }

  /** Behind a message that is not the last. */
  lemma WaitsAgain(s: Abs, m: Message, s': Abs)
    requires Waits(s.r, m.start.Asking?) && MessageRead(s, m, s')
    ensures LeavesOpen(m) ==> Waits(s'.r, m.start.Asking?)
    ensures if m.start.Asking? then s'.r.status == s.r.status else s'.r.meth == s.r.meth
    ensures s'.r.errno == OK && s'.r.ptype == s.r.ptype && s'.log == s.log + Events(m, s.r.meth, s.r.status)
    ensures s'.r.state.StartReq? || s'.r.state.StartRes? <==> LeavesOpen(m)
  {
    hide Events, StaysOpen, Upgrading;
  }

  /** What the callbacks of a message say of earlier messages: nothing that changes within a connection. */
  lemma {:induction false} SameHistory(ms: seq<Message>, asking: bool, meth: Method, status: nat, meth': Method,
                                       status': nat)
    requires (forall m :: m in ms ==> m.start.Asking? == asking) && if asking then status == status' else meth == meth'
    ensures AllEvents(ms, meth, status) == AllEvents(ms, meth', status')
    decreases |ms|
  {
    hide HeaderEvents, AllHeaders, PayloadEvents, Upgrading;
    if ms != [] {
      SameHistory(ms[1..], asking, meth, status, meth', status');
      assert HeadEvent(ms[0], meth, status) == HeadEvent(ms[0], meth', status');
    }
  }

  lemma {:induction false} ThroughMessages(s: Abs, ms: seq<Message>, asking: bool) returns (s': Abs)
    requires Waits(s.r, asking) && Pipeline(ms, asking)
    ensures Through(s, PrintAll(ms), s') && s'.log == s.log + AllEvents(ms, s.r.meth, s.r.status)
    ensures s'.r.errno == OK && s'.r.ptype == s.r.ptype
    ensures if asking then s'.r.status == s.r.status else s'.r.meth == s.r.meth
    ensures s'.r.state.StartReq? || s'.r.state.StartRes? <==> forall m :: m in ms ==> LeavesOpen(m)
    ensures (forall m :: m in ms ==> LeavesOpen(m)) ==> Waits(s'.r, asking)
    decreases |ms|
  {
    hide ARun, Print, Events, Good, LeavesOpen, Upgrading, Waits, MessageRead;
    if ms == [] {
      Nothing(s);
      s' := s;
      WaitsMeans(s.r, asking);
      assert s.log + AllEvents(ms, s.r.meth, s.r.status) == s.log;
    } else {
      var s1 := ThroughMessage(s, ms[0]);
      WaitsAgain(s, ms[0], s1);
      if |ms| == 1 {
        s' := s1;
        LastMessage(ms, s.r.meth, s.r.status);
      } else {
        assert forall k :: 0 <= k < |ms| - 2 ==> ms[1..][k] == ms[k + 1];
        s' := ThroughMessages(s1, ms[1..], asking);
        Then(s, Print(ms[0]), s1, PrintAll(ms[1..]), s');
        SameHistory(ms[1..], asking, s1.r.meth, s1.r.status, s.r.meth, s.r.status);
        assert s1.log + AllEvents(ms[1..], s.r.meth, s.r.status) == s.log + AllEvents(ms, s.r.meth, s.r.status);
        FirstAndRest(ms);
      }
    }
  }

  lemma WaitsMeans(r: Regs, asking: bool)
    requires Waits(r, asking)
    ensures r.errno == OK && (r.state.StartReq? || r.state.StartRes?)
  {
  }

  lemma FirstAndRest(ms: seq<Message>)
    requires ms != []
    ensures (forall m :: m in ms ==> LeavesOpen(m)) <==> LeavesOpen(ms[0]) && forall m :: m in ms[1..] ==> LeavesOpen(m)
  {
    hide LeavesOpen;
    assert forall m :: m in ms <==> m == ms[0] || m in ms[1..];
  }

  lemma LastMessage(ms: seq<Message>, meth: Method, status: nat)
    requires |ms| == 1
    ensures PrintAll(ms) == Print(ms[0]) && AllEvents(ms, meth, status) == Events(ms[0], meth, status)
    ensures (forall m :: m in ms ==> LeavesOpen(m)) <==> LeavesOpen(ms[0])
  {
    hide Print, Events, LeavesOpen;
    assert ms[1..] == [] && Print(ms[0]) + "" == Print(ms[0])
           && Events(ms[0], meth, status) + [] == Events(ms[0], meth, status);
    assert ms[0] in ms;
  }

  lemma {:induction false} PrintedInTurn(a: seq<Message>, b: seq<Message>, meth: Method, status: nat)
    ensures PrintAll(a + b) == PrintAll(a) + PrintAll(b)
    ensures AllEvents(a + b, meth, status) == AllEvents(a, meth, status) + AllEvents(b, meth, status)
    decreases |a|
  {
    hide Print, Events;
    if a == [] {
      assert a + b == b;
    } else {
      PrintedInTurn(a[1..], b, meth, status);
      assert (a + b)[1..] == a[1..] + b;
    }
  }

  lemma PrintedFirst(m: Message)
    ensures Print(m) != "" && Print(m)[0] != CR && Print(m)[0] != LF
  {
    hide MethodString, PrintHeaders, PrintPayload, ToDecimal, DigitChar;
    if m.start.Asking? {
      MethodText(m.start.meth);
      assert Print(m)[0] == MethodString(m.start.meth)[0];
    } else {
      assert Print(m)[0] == 'H';
    }
  }

  lemma DeadStops(s: Abs, text: string)
    requires s.r.state.Dead? && text != "" && text[0] != CR && text[0] != LF
    ensures ARun(s, text, 0) == AOutcome(s.(r := s.r.(errno := ClosedConnection)), 0, true)
  {
    assert ADo(s, text[0]) == AHalt(s.(r := s.r.(errno := ClosedConnection)), false);
    hide ADo;
    AStepRun(s, text, 0);
  }

  /** That only the last message may close the connection is needed: behind one that does, the next is rejected at its
      first byte. */
  lemma RejectedBehindClosing(s: Abs, ms: seq<Message>, asking: bool, next: Message, rest: string)
    requires Waits(s.r, asking) && Pipeline(ms, asking) && ms != []
    requires !StaysOpen(ms[|ms| - 1]) && !ms[|ms| - 1].payload.UntilEnd?
    ensures var o := ARun(s, PrintAll(ms) + (Print(next) + rest), 0);
            && o.stopped && o.at == |PrintAll(ms)| && o.s.r.errno == ClosedConnection
            && o.s.log == s.log + AllEvents(ms, s.r.meth, s.r.status)
  {
    hide ARun, PrintAll, AllEvents, Good, Print, StaysOpen, Upgrading, Waits;
    var a, b := PrintAll(ms), Print(next) + rest;
    var s1 := ThroughMessages(s, ms, asking);
    assert ms[|ms| - 1] in ms;
    ClosedBehind(s, ms, asking, s1);
    PrintedFirst(next);
    DeadStops(s1, b);
    RunSplit(s, a, b, 0);
    RunShift(s1, a, b, 0);
  }

  lemma {:induction false} ClosedBehind(s: Abs, ms: seq<Message>, asking: bool, s1: Abs)
    requires Waits(s.r, asking) && Pipeline(ms, asking) && ms != [] && Through(s, PrintAll(ms), s1)
    requires !StaysOpen(ms[|ms| - 1]) && !ms[|ms| - 1].payload.UntilEnd?
    ensures s1.r.state.Dead?
  {
    hide ARun, PrintAll, AllEvents, Print, StaysOpen, Upgrading, Good, Events, KnowsHead, Waits;
    var n := |ms| - 1;
    var before, last := ms[..n], ms[n];
    assert ms == before + [last];
    assert last in ms && forall m :: m in before ==> m in ms;
    assert forall m :: m in before ==> LeavesOpen(m);
    var s2 := ThroughMessages(s, before, asking);
    var s3 := ThroughMessage(s2, last);
    PrintedInTurn(before, [last], s.r.meth, s.r.status);
    LastMessage([last], s.r.meth, s.r.status);
    Then(s, PrintAll(before), s2, Print(last), s3);
  }

  /** However a text that the automaton reads through is cut into calls and wherever callbacks pause, no call fails,
      and at the end the callbacks are those of the text. Callbacks that do not pause always get there. */
  lemma ReadToTheEnd(p: Snapshot, text: string, s': Abs, feeds: seq<Feed>)
    requires Resumable(p) && Through(AbsOfSnapshot(p), text, s') && forall f | f in feeds :: Transparent(f.h)
    ensures var (p', pos) := Drive(p, text, 0, feeds);
            && p'.r.errno == OK && pos <= |text|
            && (pos == |text| ==> Resumable(p') && p'.r == s'.r && Merge(p'.trace) == s'.log)
            && ((forall f | f in feeds :: Ordinary(f.h)) && Total(feeds) >= |text| ==> pos == |text|)
  {
    hide Drive, ARun, Merge, Resumable, Transparent, Ordinary, Total, Concealed;
    Finishes(AbsOfSnapshot(p), text, s');
    DriveFollowsStream(p, text, 0, feeds);
    var (p', pos) := Drive(p, text, 0, feeds);
    if pos == |text| && p'.r.errno == OK {
      AtEnd(AbsOfSnapshot(p'), text);
    }
    if (forall f | f in feeds :: Ordinary(f.h)) && Total(feeds) >= |text| {
      OrdinaryFeedsReachTheEnd(p, text, 0, feeds);
    }
  }

  lemma Finishes(s: Abs, data: string, s': Abs)
    requires Through(s, data, s')
    ensures var o := ARun(s, data, 0);
            o == AOutcome(s', |data|, false) && !Upgraded(o) && !Concealed(s, data, 0, false)
  {
    ConcealedStops(s, data, 0, false);
    hide ARun, Concealed;
  }

  /** A parser that waits for a request or a reply. */
  ghost predicate Awaits(p: Snapshot, asking: bool) {
    Waits(p.r, asking) && RegsOk(p.r)
  }

  /** The parser inverts the printer: however the printed messages are cut into calls and wherever the
      callbacks pause, no call fails, and at the end the callbacks are exactly those of the messages.
      Callbacks that do not pause always get there. */
  lemma ParserInvertsPrinter(p: Snapshot, ms: seq<Message>, asking: bool, feeds: seq<Feed>)
    requires Awaits(p, asking) && Pipeline(ms, asking)
    requires forall f | f in feeds :: Transparent(f.h)
    ensures var (p', pos) := Drive(p, PrintAll(ms), 0, feeds);
            && p'.r.errno == OK && pos <= |PrintAll(ms)|
            && (pos == |PrintAll(ms)| ==>
                  Merge(p'.trace) == Merge(p.trace) + AllEvents(ms, p.r.meth, p.r.status))
            && ((forall f | f in feeds :: Ordinary(f.h)) && Total(feeds) >= |PrintAll(ms)| ==> pos == |PrintAll(ms)|)
  {
    hide Drive, ARun, Merge, PrintAll, AllEvents, RegsOk, Pipeline, Transparent, Ordinary, Total;
    var s' := ThroughMessages(AbsOfSnapshot(p), ms, asking);
    ReadToTheEnd(p, PrintAll(ms), s', feeds);
  }
}
