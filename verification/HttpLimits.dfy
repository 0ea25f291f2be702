/** Requests and replies stay below the header size limit of the parser object, however they are cut. */
module HttpLimits {
  import opened Bytes
  import opened HttpTypes
  import opened HttpAutomaton
  import opened HttpRun
  import opened HttpInvariant
  import opened HttpParser
  import opened HttpStream
  import opened HttpSegments
  import opened HttpFeed
  import opened HttpNames
  import opened HttpNumbers
  import opened HttpHeaders
  import opened HttpFraming
  import opened HttpStart
  import opened HttpPrinter
  import opened HttpReply
  import opened HttpSizes
  import opened HttpDriver

  /** `text` takes the parser from `s` to `s'` and its count from `n` to `n'`, and never above `t`. */
  ghost predicate Counts(s: Abs, n: nat, text: string, s': Abs, n': nat, t: nat) {
    && Through(s, text, s')
    && Measure(s, text, 0, Width(n, false)).end == n' && Measure(s, text, 0, Width(n, false)).top <= t
  }

  lemma CountsThen(s: Abs, n: nat, a: string, s1: Abs, n1: nat, b: string, s2: Abs, n2: nat, t: nat)
    requires Counts(s, n, a, s1, n1, t) && Counts(s1, n1, b, s2, n2, t)
    ensures Counts(s, n, a + b, s2, n2, t)
  {
    hide ARun, Measure;
    Then(s, a, s1, b, s2);
    MeasureSplit(s, a, b, 0, Width(n, false));
    MeasureShift(s1, a, b, 0, Width(n1, false));
  }

  lemma CountsNothing(s: Abs, n: nat, t: nat)
    requires n <= t
    ensures Counts(s, n, "", s, n, t)
  {
    hide ARun, Measure;
    Nothing(s);
    MeasureEnd(s, "", Width(n, false));
  }

  /** Any text. */
  lemma CountsAny(s: Abs, n: nat, text: string, s': Abs, t: nat) returns (n': nat)
    requires Through(s, text, s') && n + |text| <= t
    ensures Counts(s, n, text, s', n', t) && n' <= n + |text|
  {
    hide ARun, Measure;
    MeasureRises(s, text, 0, Width(n, false));
    n' := Measure(s, text, 0, Width(n, false)).end;
  }

  lemma CountsWider(s: Abs, n: nat, text: string, s': Abs, n': nat, t: nat, t': nat)
    requires Counts(s, n, text, s', n', t) && t <= t'
    ensures Counts(s, n, text, s', n', t')
  {
    hide Through, Measure;
  }

  /** A byte outside the headers. */
  lemma CountsFree(s: Abs, n: nat, ch: char, s': Abs, t: nat)
    requires ADo(s, ch) == ANext(s') && !ParsingHeader(s.r.state) && !Resets(s.r.state, ch) && n <= t
    ensures Counts(s, n, [ch], s', n, t)
  {
    hide ADo, ARun, Measure;
    ThroughByte(s, ch, s');
    MeasureStep(s, [ch], 0, Width(n, false));
    MeasureEnd(s', [ch], Width(n, false));
  }

  /** A line end at which the count starts again. */
  lemma CountsReset(s: Abs, n: nat, s': Abs, t: nat)
    requires ADo(s, LF) == ANext(s') && Resets(s.r.state, LF) && n <= t
    ensures Counts(s, n, [LF], s', 0, t)
  {
    hide ADo, ARun, Measure;
    ThroughByte(s, LF, s');
    MeasureStep(s, [LF], 0, Width(n, false));
    MeasureEnd(s', [LF], Width(0, false));
  }

  /** A byte that is read twice. */
  lemma CountsTwice(s: Abs, n: nat, ch: char, s1: Abs, s': Abs, n': nat, t: nat)
    requires ADo(s, ch) == AAgain(s1) && ADo(s1, ch) == ANext(s') && n <= t
    requires n' == Width(n, false).Read(s.r.state, ch).Read(s1.r.state, ch).Consumed().n <= t
    ensures Counts(s, n, [ch], s', n', t)
  {
    hide ADo, ARun, Measure, Resets, ParsingHeader;
    var w := Width(n, false).Read(s.r.state, ch);
    ThroughByte(s1, ch, s');
    ThroughAgain(s, ch, s1, s');
    MeasureStep(s, [ch], 0, Width(n, false));
    MeasureStep(s1, [ch], 0, w);
    MeasureEnd(s', [ch], Width(n', false));
  }

  // ----- bodies -----

  lemma {:induction false} CountsSome(s: Abs, n: nat, b: string)
    requires (s.r.state.BodyIdentity? || s.r.state.ChunkData?) && 0 < |b| < s.r.clen
    ensures Counts(s, n, b, Partly(s, b), n, n)
  {
    hide ADo, Counts, Put;
    var k := |b| - 1;
    var w := b[..k];
    assert b == w + [b[k]];
    if k == 0 {
      assert b == [b[0]];
      BodyByte(s, b[0]);
      CountsFree(s, n, b[0], Partly(s, b), n);
    } else {
      CountsSome(s, n, w);
      BodyByte(Partly(s, w), b[k]);
      PutTwice(s.log, Body, w, [b[k]]);
      CountsFree(Partly(s, w), n, b[k], Partly(s, b), n);
      CountsThen(s, n, w, Partly(s, w), n, [b[k]], Partly(s, b), n, n);
    }
  }

  /** All but the last byte of a body or a chunk. */
  lemma CountsAllButOne(s: Abs, n: nat, b: string) returns (s1: Abs)
    requires (s.r.state.BodyIdentity? || s.r.state.ChunkData?) && 0 < |b| == s.r.clen
    ensures Counts(s, n, b[..|b| - 1], s1, n, n) && s1.r == s.r.(clen := 1)
    ensures b == b[..|b| - 1] + [b[|b| - 1]]
  {
    hide Counts, Put;
    var w := b[..|b| - 1];
    if w == "" {
      CountsNothing(s, n, n);
      s1 := s;
    } else {
      CountsSome(s, n, w);
      s1 := Partly(s, w);
    }
  }

  /** A whole body is not counted. */
  lemma CountsBody(s: Abs, n: nat, b: string) returns (s': Abs)
    requires s.r.state.BodyIdentity? && 0 < |b| == s.r.clen && !s.r.upgrade
    ensures Counts(s, n, b, s', n, n)
  {
    hide ADo, Counts, Put, NewMessage;
    var ch := b[|b| - 1];
    var s1 := CountsAllButOne(s, n, b);
    LastByte(s1, ch);
    var s2 := ADo(s1, ch).s;
    DoneByte(s2, ch);
    s' := ADo(s2, ch).s;
    CountsTwice(s1, n, ch, s2, s', n, n);
    CountsThen(s, n, b[..|b| - 1], s1, n, [ch], s', n, n);
  }

  /** A chunk leaves nothing of its size line in the count. */
  lemma CountsChunk(s: Abs, c: Chunk) returns (s': Abs)
    requires s.r.state.ChunkSizeStart? && GoodChunk(c)
    ensures Counts(s, 0, ChunkText(c.data, c.extension), s', 0, 17 + |c.extension|)
  {
    hide ADo, Counts, Put, SizeLine, Through, GoodExtension;
    var b, line, t := c.data, SizeLine(|c.data|, c.extension), 17 + |c.extension|;
    var s3 := CountsSizeLine(s, |b|, c.extension);
    var s4 := CountsAllButOne(s3, 0, b);
    CountsWider(s3, 0, b[..|b| - 1], s4, 0, 0, t);
    var ch := b[|b| - 1];
    LastChunkByte(s4, ch);
    var s5 := ADo(s4, ch).s;
    CountsFree(s4, 0, ch, s5, t);
    CountsThen(s3, 0, b[..|b| - 1], s4, 0, [ch], s5, 0, t);
    CountsThen(s, 0, line, s3, 0, b, s5, 0, t);
    s' := CountsChunkEnd(s5, t);
    CountsThen(s, 0, line + b, s5, 0, CRLF, s', 0, t);
  }

  /** The size line of a chunk. */
  lemma CountsSizeLine(s: Abs, n: nat, x: string) returns (s': Abs)
    requires s.r.state.ChunkSizeStart? && n <= MAX_CHUNK && GoodExtension(x)
    ensures Counts(s, 0, SizeLine(n, x), s', 0, 17 + |x|) && s' == SizeRead(s, n)
  {
    hide ADo, Counts, Put, ToHexadecimal, Through, GoodExtension;
    var s2 := ThroughSizeCr(s, n, x);
    var text, t := ToHexadecimal(n) + x + [CR], 17 + |x|;
    SixteenDigits(n);
    var n2 := CountsAny(s, 0, text, s2, t);
    SizeLf(s2);
    s' := ADo(s2, LF).s;
    CountsReset(s2, n2, s', t);
    CountsThen(s, 0, text, s2, n2, [LF], s', 0, t);
    assert text + [LF] == SizeLine(n, x);
  }

  lemma CountsChunkEnd(s: Abs, t: nat) returns (s': Abs)
    requires s.r.state.ChunkDataAlmostDone?
    ensures Counts(s, 0, CRLF, s', 0, t) && s'.r == s.r.(state := ChunkSizeStart)
  {
    hide ADo, Counts, Put;
    ChunkCr(s);
    var s1 := ADo(s, CR).s;
    CountsFree(s, 0, CR, s1, t);
    ChunkLf(s1);
    s' := ADo(s1, LF).s;
    CountsReset(s1, 0, s', t);
    CountsThen(s, 0, [CR], s1, 0, [LF], s', 0, t);
    assert [CR] + [LF] == CRLF;
  }

  lemma SameEnd(s: Abs, n: nat, text: string, a: Abs, n': nat, t: nat, b: Abs)
    requires Counts(s, n, text, a, n', t) && Through(s, text, b)
    ensures a == b
  {
    hide ARun, Measure;
  }

  function Power16(k: nat): nat {
    if k == 0 then 1 else 16 * Power16(k - 1)
  }

  lemma {:induction false} ShortHexadecimal(n: nat, k: nat)
    requires 0 < k && n < Power16(k)
    ensures |ToHexadecimal(n)| <= k
  {
    if n >= 16 {
      assert Power16(1) == 16;
      ShortHexadecimal(n / 16, k - 1);
    }
  }

  lemma SixteenDigits(n: nat)
    requires n <= MAX_CHUNK
    ensures |ToHexadecimal(n)| <= 16
  {
    assert Power16(4) == 0x1_0000 && Power16(8) == 0x1_0000_0000 && Power16(12) == 0x1_0000_0000_0000;
    assert Power16(16) == TWO_64;
    hide Power16;
    ShortHexadecimal(n, 16);
  }

  /** The longest size line of chunks. */
  function LongestLine(cs: seq<Chunk>): nat {
    if cs == [] then 0 else Max(17 + |cs[0].extension|, LongestLine(cs[1..]))
  }

  lemma {:induction false} CountsChunks(s: Abs, cs: seq<Chunk>) returns (s': Abs)
    requires s.r.state.ChunkSizeStart? && forall c :: c in cs ==> GoodChunk(c)
    ensures Counts(s, 0, PrintChunks(cs), s', 0, LongestLine(cs)) && s'.r.state.ChunkSizeStart?
    decreases |cs|
  {
    hide Counts, Through, Put, ChunkText, GoodChunk;
    if cs == [] {
      s' := s;
      CountsNothing(s, 0, 0);
    } else {
      var c, t := cs[0], LongestLine(cs);
      var text := ChunkText(c.data, c.extension);
      assert c in cs;
      var s1 := CountsChunk(s, c);
      CountsWider(s, 0, text, s1, 0, 17 + |c.extension|, t);
      BehindChunk(s, c, s1, t);
      s' := CountsChunks(s1, cs[1..]);
      CountsWider(s1, 0, PrintChunks(cs[1..]), s', 0, LongestLine(cs[1..]), t);
      CountsThen(s, 0, text, s1, 0, PrintChunks(cs[1..]), s', 0, t);
    }
  }

  lemma BehindChunk(s: Abs, c: Chunk, s1: Abs, t: nat)
    requires s.r.state.ChunkSizeStart? && GoodChunk(c) && Counts(s, 0, ChunkText(c.data, c.extension), s1, 0, t)
    ensures s1.r.state.ChunkSizeStart?
  {
    hide Counts, Through, Put, ChunkText, GoodExtension;
    ThroughChunk(s, c.data, c.extension);
    var s2 := Abs(s.r.(clen := 0), Put(Put(Put(s.log, ChunkHeader(|c.data|)), Data(Body, c.data)), ChunkComplete));
    SameEnd(s, 0, ChunkText(c.data, c.extension), s1, 0, t, s2);
  }

  /** The header bytes behind the last chunk, which stay in the count. */
  function TrailerSize(hs: seq<Header>): nat {
    |PrintHeaders(hs)| + 2
  }

  lemma CountsTrailer(s: Abs, last: string, hs: seq<Header>) returns (s': Abs, n': nat)
    requires s.r.state.ChunkSizeStart? && s.r.errno == OK && !s.r.upgrade && GoodExtension(last)
             && forall h :: h in hs ==> GoodHeader(h)
    ensures Counts(s, 0, PrintTrailer(last, hs), s', n', Max(17 + |last|, TrailerSize(hs))) && n' <= TrailerSize(hs)
  {
    hide Counts, ARun, Put, PrintHeaders, SizeLine, GoodExtension, GoodHeader, Settled, LineEnded, WithHeaders;
    var t := Max(17 + |last|, TrailerSize(hs));
    var s1 := CountsSizeLine(s, 0, last);
    CountsWider(s, 0, SizeLine(0, last), s1, 0, 17 + |last|, t);
    SizeReady(s.log);
    var s2 := ThroughTrailerHeaders(s1, hs);
    ThroughTrailerEnd(s2);
    s' := Trailed(Settled(s2));
    Then(s1, PrintHeaders(hs), s2, CRLF, s');
    n' := CountsAny(s1, 0, PrintHeaders(hs) + CRLF, s', t);
    CountsThen(s, 0, SizeLine(0, last), s1, 0, PrintHeaders(hs) + CRLF, s', n', t);
    assert SizeLine(0, last) + (PrintHeaders(hs) + CRLF) == PrintTrailer(last, hs);
  }

  lemma SizeReady(log: seq<Event>)
    ensures ReadyForField(Put(log, ChunkHeader(0)))
  {
  }

  /** The headers behind the last chunk. */
  lemma ThroughTrailerHeaders(s: Abs, hs: seq<Header>) returns (s': Abs)
    requires s.r.state.HeaderFieldStart? && s.r.errno == OK && ReadyForField(s.log) && s.r.flags.trailing
             && forall h :: h in hs ==> GoodHeader(h)
    ensures Through(s, PrintHeaders(hs), s') && LineEnded(s') && Settled(s').r.state.HeaderFieldStart?
    ensures Settled(s').r.flags.trailing && Settled(s').r.upgrade == s.r.upgrade
  {
    hide Through, PrintHeaders, GoodHeader, Settled, LineEnded, WithHeaders, ReadyForField;
    s' := ThroughHeaders(s, hs);
    TrailingStays(s.r.flags, hs);
  }

  // ----- messages -----

  /** The CR of the empty line. */
  lemma ThroughBlankCr(s: Abs)
    requires LineEnded(s) && Settled(s).r.state.HeaderFieldStart?
    ensures Through(s, [CR], Settled(s).(r := Settled(s).r.(state := HeadersAlmostDone)))
  {
    hide ADo, Through, Settled;
    var t := Settled(s);
    BlankCr(t);
    ThroughByte(t, CR, t.(r := t.r.(state := HeadersAlmostDone)));
    Settle(s, [CR], t.(r := t.r.(state := HeadersAlmostDone)));
  }

  /** The header lines of a message and the empty line behind them: at its end the count starts again. */
  lemma CountsHead(s: Abs, n: nat, lines: string, s1: Abs)
    requires Through(s, lines, s1) && LineEnded(s1) && HeadOver(Settled(s1).r) && Settled(s1).r.state.HeaderFieldStart?
    requires !BodyKind(Announced(Settled(s1)).r).Tunnel?
    ensures var a := Announced(Settled(s1)); Counts(s, n, lines + CRLF, Headed(a.r, a.log), 0, n + |lines| + 1)
  {
    hide ADo, Counts, Through, Put, EventOf, Settled, LineEnded, HeadOver, Headed, BodyKind, UpgradeAsked;
    var t := Settled(s1);
    var t1 := t.(r := t.r.(state := HeadersAlmostDone));
    ThroughBlankCr(s1);
    Then(s, lines, s1, [CR], t1);
    var n1 := CountsAny(s, n, lines + [CR], t1, n + |lines| + 1);
    StillOver(t.r);
    BlankLf(t1);
    SameAnnounced(t, t1);
    var t2 := Announced(t);
    BodyLf(t2);
    var t3 := Headed(t2.r, t2.log);
    CountsTwice(t1, n1, LF, t2, t3, 0, n + |lines| + 1);
    CountsThen(s, n, lines + [CR], t1, n1, [LF], t3, 0, n + |lines| + 1);
    assert lines + [CR] + [LF] == lines + CRLF;
  }

  /** What a message counts at most: its head, the longest size line of its chunks, or the headers behind them. */
  function Peak(m: Message): nat {
    Max(|PrintHead(m)|,
        match m.payload
        case Chunked(cs, last, hs) => Max(LongestLine(cs), Max(17 + |last|, TrailerSize(hs)))
        case Bare => 0
        case Whole(_, _) => 0
        case UntilEnd(_) => 0)
  }

  /** What a message leaves in the count. */
  function Tail(m: Message): nat {
    if m.payload.Chunked? then TrailerSize(m.payload.trailers) else 0
  }

  lemma CountsPayload(s: Abs, m: Message, s1: Abs) returns (s': Abs, n': nat)
    requires HeadRead(s, m, s1) && GoodPayload(m.start, m.payload) && !EndsWithHead(m) && !Upgrading(m)
    ensures Counts(s1, 0, PrintPayload(m.payload), s', n', Peak(m)) && n' <= Tail(m)
  {
    hide Counts, HeadEvents, PrintHead, GoodHeader, GoodExtension, GoodChunk, NewMessage, TrailerSize, PrintTrailer,
         PrintChunks, Upgrading;
    var p, t := m.payload, Peak(m);
    n' := 0;
    match p {
      case Whole(b, _) =>
        s' := CountsBody(s1, 0, b);
        CountsWider(s1, 0, b, s', 0, 0, t);
      case Chunked(cs, last, hs) => s', n' := CountsInChunks(s1, m);
      case UntilEnd(b) => s' := CountsEndless(s1, 0, b, t);
      case Bare => assert false;
    }
  }

  lemma CountsInChunks(s: Abs, m: Message) returns (s': Abs, n': nat)
    requires m.payload.Chunked? && GoodPayload(m.start, m.payload)
    requires s.r.state.ChunkSizeStart? && s.r.errno == OK && !s.r.upgrade
    ensures Counts(s, 0, PrintPayload(m.payload), s', n', Peak(m)) && n' <= Tail(m)
  {
    hide Counts, Through, PrintHead, GoodHeader, GoodExtension, GoodChunk, TrailerSize, PrintTrailer, PrintChunks,
         ChunkEvents;
    var p, t := m.payload, Peak(m);
    var s1 := CountsChunks(s, p.chunks);
    CountsWider(s, 0, PrintChunks(p.chunks), s1, 0, LongestLine(p.chunks), t);
    var s2 := ThroughChunks(s, p.chunks);
    SameEnd(s, 0, PrintChunks(p.chunks), s1, 0, t, s2);
    s', n' := CountsTrailer(s1, p.last, p.trailers);
    CountsWider(s1, 0, PrintTrailer(p.last, p.trailers), s', n', Max(17 + |p.last|, TrailerSize(p.trailers)), t);
    CountsThen(s, 0, PrintChunks(p.chunks), s1, 0, PrintTrailer(p.last, p.trailers), s', n', t);
  }

  /** A body that lasts to the end of the stream is not counted. */
  lemma {:induction false} CountsEndless(s: Abs, n: nat, b: string, t: nat) returns (s': Abs)
    requires s.r.state.BodyIdentityEof? && n <= t
    ensures Counts(s, n, b, s', n, t) && s'.r.state.BodyIdentityEof?
  {
    hide ADo, Counts, Put;
    var k := |b| - 1;
    if b == "" {
      CountsNothing(s, n, t);
      s' := s;
    } else {
      var s1 := CountsEndless(s, n, b[..k], t);
      EndlessByte(s1, b[k]);
      s' := ADo(s1, b[k]).s;
      CountsFree(s1, n, b[k], s', t);
      CountsThen(s, n, b[..k], s1, n, [b[k]], s', n, t);
      assert b == b[..k] + [b[k]];
    }
  }

  /** The head of a message. */
  lemma CountsPrintedHead(s: Abs, n: nat, m: Message) returns (s': Abs)
    requires Waits(s.r, m.start.Asking?) && Good(m) && !Upgrading(m)
    ensures HeadRead(s, m, s') && Counts(s, n, PrintHead(m), s', 0, n + |PrintHead(m)|)
  {
    hide Counts, ARun, PrintLines, LinesRead, Settled, Started, GoodStart, GoodPayload, Waits, HeadOver, HeadRead,
         Headed,
         BodyKind, Announced, KnowsHead, Upgrading, EndsWithHead;
    var s1 := ThroughLines(s, m);
    KnowsBehindLines(s, m, s1);
    var t := Settled(s1);
    LinesEnded(s, m, s1);
    HeadIsAnnounced(s, m, t);
    HeadIsRead(s, m, t);
    s' := Headed(Announced(t).r, Announced(t).log);
    CountsHead(s, n, PrintLines(m), s1);
    CountsWider(s, n, PrintHead(m), s', 0, n + |PrintLines(m)| + 1, n + |PrintHead(m)|);
  }

  /** A message counts no more than its peak, and leaves no more than its tail in the count. */
  lemma CountsMessage(s: Abs, n: nat, m: Message, s': Abs) returns (n': nat)
    requires Waits(s.r, m.start.Asking?) && Good(m) && !Upgrading(m) && Through(s, Print(m), s')
    ensures Counts(s, n, Print(m), s', n', n + Peak(m)) && n' <= Tail(m)
  {
    hide Counts, Through, PrintHead, PrintPayload, HeadRead, Good, GoodPayload, Waits, Upgrading, EndsWithHead;
    var t := n + Peak(m);
    var s1 := CountsPrintedHead(s, n, m);
    CountsWider(s, n, PrintHead(m), s1, 0, n + |PrintHead(m)|, t);
    PrintedParts(m);
    GoodHasPayload(m);
    n' := 0;
    var s2 := s1;
    if !EndsWithHead(m) {
      s2, n' := CountsPayload(s, m, s1);
      CountsWider(s1, 0, PrintPayload(m.payload), s2, n', Peak(m), t);
      CountsThen(s, n, PrintHead(m), s1, 0, PrintPayload(m.payload), s2, n', t);
    }
    SameEnd(s, n, Print(m), s2, n', t, s');
  }

  function LongestHead(ms: seq<Message>): nat {
    if ms == [] then 0 else Max(Peak(ms[0]), LongestHead(ms[1..]))
  }

  function LongestTail(ms: seq<Message>): nat {
    if ms == [] then 0 else Max(Tail(ms[0]), LongestTail(ms[1..]))
  }

  /** The messages of a connection never count more than the longest head and what the one before has left, or what was
      counted before. */
  lemma {:induction false} CountsMessages(s: Abs, n: nat, ms: seq<Message>, asking: bool, s': Abs) returns (n': nat)
    requires Waits(s.r, asking) && Pipeline(ms, asking) && Through(s, PrintAll(ms), s')
    ensures Counts(s, n, PrintAll(ms), s', n', Max(n, LongestTail(ms)) + LongestHead(ms))
    decreases |ms|
  {
    hide Counts, Through, Print, PrintHead, Good, LeavesOpen, Events, Peak, Tail, Waits, Upgrading, MessageRead;
    var t := Max(n, LongestTail(ms)) + LongestHead(ms);
    if ms == [] {
      n' := n;
      CountsNothing(s, n, t);
      SameEnd(s, n, "", s, n, t, s');
    } else {
      var m := ms[0];
      assert m in ms;
      var s1 := ThroughMessage(s, m);
      EndsIsThrough(s, Print(m), s1);
      WaitsAgain(s, m, s1);
      var n1 := CountsMessage(s, n, m, s1);
      CountsWider(s, n, Print(m), s1, n1, n + Peak(m), t);
      if |ms| == 1 {
        n' := n1;
        LastMessage(ms, s.r.meth, s.r.status);
        SameEnd(s, n, PrintAll(ms), s1, n1, t, s');
      } else {
        assert forall k :: 0 <= k < |ms| - 2 ==> ms[1..][k] == ms[k + 1];
        var s2 := ThroughMessages(s1, ms[1..], asking);
        n' := CountsMessages(s1, n1, ms[1..], asking, s2);
        CountsWider(s1, n1, PrintAll(ms[1..]), s2, n', Max(n1, LongestTail(ms[1..])) + LongestHead(ms[1..]), t);
        CountsThen(s, n, Print(m), s1, n1, PrintAll(ms[1..]), s2, n', t);
        SameEnd(s, n, PrintAll(ms), s2, n', t, s');
      }
    }
  }

  lemma EndsIsThrough(s: Abs, text: string, s': Abs)
    requires Ends(s, text, s', false)
    ensures Through(s, text, s')
  {
    hide ARun;
  }

  lemma MessagesPeak(p: Snapshot, ms: seq<Message>, asking: bool, hdr: nat)
    requires Awaits(p, asking) && Pipeline(ms, asking)
    ensures Ahead(p, PrintAll(ms), 0, hdr) <= Max(hdr, LongestTail(ms)) + LongestHead(ms)
    ensures Resumable(p) && !Concealed(AbsOfSnapshot(p), PrintAll(ms), 0, false)
            && !Upgraded(ARun(AbsOfSnapshot(p), PrintAll(ms), 0))
  {
    hide ARun, Measure, RegsOk, Merge, PrintAll, Pipeline, Concealed, LongestHead, LongestTail, AllEvents;
    var s := AbsOfSnapshot(p);
    var s' := ThroughMessages(s, ms, asking);
    var n' := CountsMessages(s, hdr, ms, asking, s');
    Finishes(s, PrintAll(ms), s');
  }

  lemma RoomForLess(hdr: nat, cuts: nat, t: nat, t': nat, feeds: seq<Feed>)
    requires Roomy(hdr, cuts, t, feeds) && t' <= t
    ensures Roomy(hdr, cuts, t', feeds)
  {
    hide Ordinary;
  }

  /** The parser object inverts the printer: printed messages, however they are cut into calls and wherever the
      callbacks pause, are read without an error, and at the end the callbacks are exactly those of the messages, if
      the heads have room. Bodies may have any size. */
  method ReadMessages(p: Parser, text: string, feeds: seq<Feed>, ghost ms: seq<Message>, ghost asking: bool)
    returns (pos: nat)
    requires p.Valid() && Awaits(p.View(), asking) && Pipeline(ms, asking) && text == PrintAll(ms)
    requires forall f | f in feeds :: Transparent(f.h) && f.n < TWO_32 - MAX_HEADER_SIZE
    requires Roomy(p.hdr, p.cuts, Max(p.hdr, LongestTail(ms)) + LongestHead(ms), feeds)
    modifies p
    ensures p.Valid() && p.errno == OK && pos <= |text|
    ensures pos == |text| ==>
              Merge(p.trace) == Merge(old(p.trace)) + AllEvents(ms, old(p.meth), old(p.status))
    ensures (forall f | f in feeds :: Ordinary(f.h)) && Total(feeds) >= |text| ==> pos == |text|
  {
    hide RegsOk, Merge, PrintAll, Pipeline, AllEvents, Drive, Total, Transparent, Ordinary, ARun, Concealed,
         LongestHead,
         LongestTail, Awaits, Resumable, Ahead, Roomy, p.Valid;
    MessagesPeak(p.View(), ms, asking, p.hdr);
    RoomForLess(p.hdr, p.cuts, Max(p.hdr, LongestTail(ms)) + LongestHead(ms), Ahead(p.View(), text, 0, p.hdr), feeds);
    ParserInvertsPrinter(p.View(), ms, asking, feeds);
    pos := FeedAll(p, text, feeds);
  }

  /** A new parser reads messages with heads of almost 40 KiB and bodies of any size, however small the pieces are. */
  method ReadWithNewParser(asking: bool, text: string, feeds: seq<Feed>, ghost ms: seq<Message>) returns (p: Parser)
    requires Pipeline(ms, asking) && text == PrintAll(ms)
    requires 2 * (LongestTail(ms) + LongestHead(ms)) + 1 <= 81920
    requires forall f | f in feeds :: Ordinary(f.h) && f.n < TWO_32 - MAX_HEADER_SIZE
    requires Total(feeds) >= |text|
    ensures fresh(p) && p.Valid() && p.errno == OK && Merge(p.trace) == AllEvents(ms, DELETE, 0)
  {
    hide Merge, PrintAll, Pipeline, AllEvents, Total, Transparent, Ordinary, LongestHead, LongestTail;
    p := new Parser(if asking then Request else Response);
    forall f | f in feeds
      ensures Transparent(f.h)
    {
      OrdinaryIsTransparent(f.h);
    }
    NothingMerged();
    var pos := ReadMessages(p, text, feeds, ms, asking);
  }

  lemma NothingMerged()
    ensures Merge([]) == [] && forall log: seq<Event> :: [] + log == log
  {
  }

  // ----- a header that does not end -----

  /** A byte of a header. */
  lemma CountsByte(s: Abs, n: nat, ch: char, s': Abs)
    requires ADo(s, ch) == ANext(s') && ParsingHeader(s.r.state) && ch != LF
    ensures Counts(s, n, [ch], s', n + 1, n + 1)
  {
    hide ADo, ARun, Measure;
    ThroughByte(s, ch, s');
    MeasureStep(s, [ch], 0, Width(n, false));
    MeasureEnd(s', [ch], Width(n + 1, false));
  }

  /** All bytes of a value of no interest to the body count. */
  lemma {:induction false} CountsValue(s: Abs, n: nat, v: string) returns (s': Abs)
    requires s.r.state.HeaderValueDiscardWs? && s.r.errno == OK && v != "" && GoodValue(v)
    requires !s.r.hstate.ContentLength? && !s.r.hstate.TransferEncoding?
    ensures Counts(s, n, v, s', n + |v|, n + |v|) && Tame(s'.r)
    decreases |v|
  {
    hide ADo, Counts, Put, ValueFirst, ValueNext, IsHeaderChar;
    var k := |v| - 1;
    var w := v[..k];
    assert v == w + [v[k]];
    if k == 0 {
      assert v == [v[0]];
      TameFirst(s.r, v[0]);
      FirstValueByte(s, v[0]);
      s' := Abs(ValueFirst(s.r, v[0]).r, Put(s.log, Data(Value, v)));
      CountsByte(s, n, v[0], s');
    } else {
      assert GoodValue(w);
      var s1 := CountsValue(s, n, w);
      TameNext(s1.r, v[k]);
      NextValueByte(s1, v[k]);
      s' := Abs(ValueNext(s1.r, v[k]), Put(s1.log, Data(Value, [v[k]])));
      CountsByte(s1, n + k, v[k], s');
      CountsWider(s, n, w, s1, n + k, n + k, n + |v|);
      CountsThen(s, n, w, s1, n + k, [v[k]], s', n + |v|, n + |v|);
    }
  }

  /** The beginning of a message, up to the value of its first header. */
  function Beginning(m: Message, name: string): string {
    StartLine(m.start, m.major, m.minor) + (name + ":")
  }

  lemma EndlessPeak(s: Abs, m: Message, name: string, v: string, n: nat) returns (s': Abs)
    requires Waits(s.r, m.start.Asking?) && GoodStart(m.start) && GoodHeader(Header(name, "")) && GoodValue(v)
             && v != ""
    ensures Through(s, Beginning(m, name) + v, s')
    ensures Measure(s, Beginning(m, name) + v, 0, Width(n, false)).top >= |v|
  {
    hide ARun, ADo, Measure, Recognize, Put, StartLine, Started, GoodStart, AreTokens, LowerName, GoodValue, Waits,
         Fresh;
    var a := Beginning(m, name);
    var s1 := Started(s, m.start, m.major, m.minor);
    ThroughStartLine(s, m.start, m.major, m.minor);
    StartedBegins(s, m);
    PlainName(Header(name, ""));
    assert Blank("") && name + ":" + "" == name + ":";
    ThroughIntro(s1, name, "");
    var s2 := Introduced(s1, name);
    Then(s, StartLine(m.start, m.major, m.minor), s1, name + ":", s2);
    var e := Measure(s, a, 0, Width(n, false)).end;
    s' := CountsValue(s2, e, v);
    Then(s, a, s2, v, s');
    MeasureSplit(s, a, v, 0, Width(n, false));
    MeasureShift(s2, a, v, 0, Width(e, false));
  }

  lemma StartedBegins(s: Abs, m: Message)
    requires Waits(s.r, m.start.Asking?)
    ensures var s' := Started(s, m.start, m.major, m.minor); s'.r.state.HeaderFieldStart? && s'.r.errno == OK
  {
    hide MethodString;
  }

  /** The limit holds: the beginning of a message with a header value of more than 80 KiB is refused, however it is
      cut. */
  method EndlessHeader(p: Parser, text: string, feeds: seq<Feed>, ghost m: Message, ghost name: string, ghost v: string)
    returns (pos: nat)
    requires p.Valid() && Awaits(p.View(), m.start.Asking?) && !p.paused && GoodStart(m.start)
    requires GoodHeader(Header(name, "")) && GoodValue(v)
    requires text == Beginning(m, name) + v && |v| > 81920
    requires AllOrdinary(feeds) && Total(feeds) >= |text| && forall f | f in feeds :: f.n < TWO_32 - MAX_HEADER_SIZE
    modifies p
    ensures p.Valid() && p.errno == HeaderOverflow
  {
    hide RegsOk, Merge, Drive, Total, Transparent, Ordinary, ARun, Concealed, GoodStart, GoodHeader, GoodValue,
         Beginning,
         Measure,
      p.Valid;
    forall f | f in feeds
      ensures Transparent(f.h)
    {
      OrdinaryIsTransparent(f.h);
    }
    ghost var s' := EndlessPeak(AbsOfSnapshot(p.View()), m, name, v, p.hdr);
    Finishes(AbsOfSnapshot(p.View()), text, s');
    ReadToTheEnd(p.View(), text, s', feeds);
    pos := FeedAll(p, text, feeds);
  }

  // ----- replies -----

  function Power10(k: nat): nat {
    if k == 0 then 1 else 10 * Power10(k - 1)
  }

  lemma {:induction false} ShortDecimal(n: nat, k: nat)
    requires 0 < k && n < Power10(k)
    ensures |ToDecimal(n)| <= k
  {
    if n >= 10 {
      assert Power10(1) == 10;
      ShortDecimal(n / 10, k - 1);
    }
  }

  lemma TwentyDigits(n: nat)
    requires n <= MAX_LENGTH
    ensures |ToDecimal(n)| <= 20
  {
    assert Power10(5) == 100_000 && Power10(10) == 10_000_000_000 && Power10(15) == 1_000_000_000_000_000;
    assert Power10(20) == 100_000_000_000_000_000_000;
    hide Power10;
    ShortDecimal(n, 20);
  }

  /** A reply of the provider agent has at most 64 header bytes. */
  lemma ReplyFits(data: string)
    requires |data| <= MAX_LENGTH
    ensures LongestHead([Reply(data)]) <= 64 && LongestTail([Reply(data)]) == 0
  {
    hide ToDecimal, StartLine, PrintHeaders, AllHeaders;
    ReplyHeaders(data);
    StatusLineIs();
    LengthLineIs(|data|);
    TwentyDigits(|data|);
    var m := Reply(data);
    assert [m][1..] == [];
    assert |PrintHead(m)| <= 64;
  }

  /** The parser object reads a reply of the provider agent whole, however it is cut into reads. */
  method ReadReply(p: Parser, text: string, feeds: seq<Feed>, ghost data: string) returns (pos: nat)
    requires p.Valid() && Awaits(p.View(), false) && |data| <= MAX_LENGTH && text == ReplyText(data)
    requires forall f | f in feeds :: Transparent(f.h) && f.n < TWO_32 - MAX_HEADER_SIZE
    requires Roomy(p.hdr, p.cuts, p.hdr + 64, feeds)
    modifies p
    ensures p.Valid() && p.errno == OK && pos <= |text|
    ensures pos == |text| ==> Merge(p.trace) == Merge(old(p.trace)) + ReplyEvents(data, old(p.meth))
    ensures (forall f | f in feeds :: Ordinary(f.h)) && Total(feeds) >= |text| ==> pos == |text|
  {
    hide RegsOk, Merge, Reply, ReplyText, ReplyEvents, Drive, Total, Transparent, Ordinary, Awaits, Roomy, Print,
         Events,
      Upgrading, LeavesOpen, Good, LongestHead, LongestTail, p.Valid;
    ghost var m := Reply(data);
    ReplyFits(data);
    ReplyPrinted(data);
    ReplyIsGood(data);
    ReplyMeant(data, p.meth, p.status);
    ReplyIs(data);
    LastMessage([m], p.meth, p.status);
    RoomForLess(p.hdr, p.cuts, p.hdr + 64, Max(p.hdr, LongestTail([m])) + LongestHead([m]), feeds);
    pos := ReadMessages(p, text, feeds, [m], false);
  }
}
