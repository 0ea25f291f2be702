/** The headers that announce a body, and the bodies. */
module HttpFraming {
  import opened Bytes
  import opened HttpTypes
  import opened HttpAutomaton
  import opened HttpRun
  import opened HttpInvariant
  import opened HttpStream
  import opened HttpFeed
  import opened HttpNames
  import opened HttpNumbers
  import opened HttpHeaders
  import opened HttpConnection

  // ----- Transfer-Encoding -----

  ghost predicate ChunkedMeans(r: Regs, v: string) {
    match r.hstate
    case MatchingChunked => AllFit(CHUNKED, v) && |v| == r.index + 1 < |CHUNKED|
    case TransferEncodingChunked => Says(CHUNKED, v)
    case General => !AllFit(CHUNKED, v)
    case _ => false
  }

  /** Only the recognizer has moved. */
  ghost predicate Recognizing(r: Regs, r': Regs) {
    r' == r.(state := HeaderValue, hstate := r'.hstate, index := r'.index)
  }

  lemma ChunkedFirst(r: Regs, ch: char)
    requires r.hstate.TransferEncoding?
    ensures var a := ValueFirst(r, ch);
            && a.Go? && a == Go(a.r, Open(Value), Quiet, Advance) && Recognizing(r, a.r) && ChunkedMeans(a.r, [ch])
  {
    FitsMore(CHUNKED, "", ch);
    assert "" + [ch] == [ch] && AllFit(CHUNKED, "");
    hide AllFit, Lower;
  }

  lemma ChunkedNext(r: Regs, v: string, ch: char)
    requires r.state.HeaderValue? && ChunkedMeans(r, v)
    ensures var r' := ValueNext(r, ch); Recognizing(r, r') && ChunkedMeans(r', v + [ch])
  {
    FitsMore(CHUNKED, v, ch);
    hide AllFit, Lower;
    match r.hstate
    case MatchingChunked =>
    case TransferEncodingChunked =>
    case General =>
  }

  lemma {:induction false} ThroughEncoding(s: Abs, v: string) returns (s': Abs)
    requires s.r.state.HeaderValueDiscardWs? && s.r.errno == OK && v != "" && GoodValue(v)
    requires s.r.hstate.TransferEncoding?
    ensures Through(s, v, s') && s'.log == Put(s.log, Data(Value, v))
    ensures Recognizing(s.r, s'.r) && ChunkedMeans(s'.r, v)
  {
    hide ADo, Through, Put, ValueFirst, ValueNext, IsHeaderChar, ChunkedMeans;
    var n := |v| - 1;
    var w := v[..n];
    assert v == w + [v[n]];
    if n == 0 {
      assert v == [v[0]];
      ChunkedFirst(s.r, v[0]);
      FirstValueByte(s, v[0]);
      s' := Abs(ValueFirst(s.r, v[0]).r, Put(s.log, Data(Value, v)));
      ThroughByte(s, v[0], s');
    } else {
      assert GoodValue(w);
      var s1 := ThroughEncoding(s, w);
      ChunkedNext(s1.r, w, v[n]);
      NextValueByte(s1, v[n]);
      PutTwice(s.log, Value, w, [v[n]]);
      s' := Abs(ValueNext(s1.r, v[n]), Put(s.log, Data(Value, v)));
      ThenByte(s, w, s1, v[n], s');
    }
  }

  /** A Transfer-Encoding value on one line sets the chunked flag exactly if it says "chunked". */
  lemma ChunkedExactly(s: Abs, v: string) returns (s': Abs)
    requires s.r.state.HeaderValueDiscardWs? && s.r.errno == OK && v != "" && GoodValue(v)
    requires s.r.hstate.TransferEncoding?
    ensures Through(s, v + CRLF, s') && LineEnded(s')
    ensures Settled(s') == Abs(s.r.(state := HeaderFieldStart, hstate := s'.r.hstate, index := s'.r.index,
                                    flags := s.r.flags.(chunked := s.r.flags.chunked || Says(CHUNKED, v))),
                               Put(s.log, Data(Value, v)))
  {
    hide ADo, Through, Put, AllFit;
    var s1 := ThroughEncoding(s, v);
    ThroughEnd(s1);
    s' := Ended(s1);
    Then(s, v, s1, CRLF, s');
  }

  // ----- the two header lines -----

  /** The registers at the start of the next line, up to what the recognizer has left behind. */
  ghost predicate LineDone(s: Abs, h: Header, r: Regs, s': Abs) {
    && LineEnded(s') && Settled(s').r == r.(hstate := s'.r.hstate, index := s'.r.index) && r.state.HeaderFieldStart?
    && Settled(s').log == s.log + HeaderEvents([h])
  }

  lemma {:induction false} LowerNameAt(name: string, k: nat)
    requires k < |name|
    ensures LowerName(name)[k] == TokenLower(name[k])
    decreases |name|
  {
    if k < |name| - 1 {
      LowerNameAt(name[..|name| - 1], k);
    }
  }

  lemma LengthName()
    ensures AreTokens("Content-Length") && Recognize("Content-Length").0 == ContentLength
  {
    var name, lower := "Content-Length", "content-length";
    assert forall k :: 0 <= k < 14 ==> IsToken(name[k]) && TokenLower(name[k]) == lower[k];
    forall k | 0 <= k < 14
      ensures LowerName(name)[k] == lower[k]
    {
      LowerNameAt(name, k);
    }
    assert LowerName(name) == lower;
    RecognizesExactly(name);
  }

  lemma EncodingName()
    ensures AreTokens("Transfer-Encoding") && Recognize("Transfer-Encoding").0 == TransferEncoding
  {
    var name, lower := "Transfer-Encoding", "transfer-encoding";
    assert forall k :: 0 <= k < 17 ==> IsToken(name[k]) && TokenLower(name[k]) == lower[k];
    forall k | 0 <= k < 17
      ensures LowerName(name)[k] == lower[k]
    {
      LowerNameAt(name, k);
    }
    assert LowerName(name) == lower;
    RecognizesExactly(name);
  }

  lemma ThroughLengthLine(s: Abs, n: nat, gap: string) returns (s': Abs)
    requires s.r.state.HeaderFieldStart? && s.r.errno == OK && ReadyForField(s.log)
    requires !s.r.flags.contentLength && n <= MAX_LENGTH && Blank(gap)
    ensures var h := Header("Content-Length", ToDecimal(n), gap);
            && Through(s, PrintHeader(h), s')
            && LineDone(s, h, s.r.(clen := n, flags := s.r.flags.(contentLength := true)), s')
  {
    hide ADo, Through, Recognize, Put, ToDecimal, AreTokens, Blank;
    var h := Header("Content-Length", ToDecimal(n), gap);
    var d := ToDecimal(n);
    LengthName();
    ThroughIntro(s, h.name, gap);
    var s1 := Introduced(s, h.name);
    LengthExact(s1, d, "");
    var s2 := Lengthed(s1, d, n);
    Then(s, h.name + ":" + gap, s1, d, s2);
    ThroughEnd(s2);
    s' := Ended(s2);
    Then(s, h.name + ":" + gap + d, s2, CRLF, s');
    PutHeader(s.log, h);
    assert HeaderEvents([h]) == [Data(Field, h.name), Data(Value, h.value)];
  }

  lemma ChunkedIsChunked()
    ensures Says(CHUNKED, "chunked") && GoodValue("chunked")
  {
    var v := "chunked";
    assert forall k :: 0 <= k < 7 ==> Lower(v[k]) == CHUNKED[k] && IsHeaderChar(v[k]) && v[k] != CR && v[k] != LF;
  }

  lemma ThroughEncodingLine(s: Abs) returns (s': Abs)
    requires s.r.state.HeaderFieldStart? && s.r.errno == OK && ReadyForField(s.log)
    ensures var h := Header("Transfer-Encoding", "chunked");
            && Through(s, PrintHeader(h), s')
            && LineDone(s, h, s.r.(flags := s.r.flags.(chunked := true)), s')
  {
    hide ADo, Through, Recognize, Put, AreTokens, Says, GoodValue;
    var h := Header("Transfer-Encoding", "chunked");
    EncodingName();
    ThroughIntro(s, h.name, h.gap);
    var s1 := Introduced(s, h.name);
    ChunkedIsChunked();
    s' := ChunkedExactly(s1, h.value);
    Then(s, h.name + ":" + h.gap, s1, h.value + CRLF, s');
    assert h.name + ":" + h.gap + (h.value + CRLF) == PrintHeader(h);
    PutHeader(s.log, h);
    assert HeaderEvents([h]) == [Data(Field, h.name), Data(Value, h.value)];
  }

  // ----- the empty line -----

  /** A message whose header lines are complete and agree about the body. */
  ghost predicate HeadOver(r: Regs) {
    r.errno == OK && !r.flags.skipBody && !r.flags.trailing && !(r.flags.chunked && r.flags.contentLength)
  }

  /** The end of a message. */
  function Completed(r: Regs, log: seq<Event>): Abs {
    Abs(r.(state := NewMessage(r)), Put(log, MessageComplete))
  }

  /** What follows the head: nothing more of this message, a body, or another protocol. */
  datatype Rest = Empty | Tunnel | Known | InChunks | Endless

  function BodyKind(r: Regs): Rest {
    if r.upgrade && (r.meth == CONNECT || !HasBody(r)) then Tunnel
    else if r.flags.chunked then InChunks
    else if r.clen == 0 then Empty
    else if r.clen != NO_LENGTH then Known
    else if MessageNeedsEof(r) then Endless else Empty
  }

  /** The parser behind the empty line. */
  function Headed(r: Regs, log: seq<Event>): Abs {
    match BodyKind(r)
    case Empty => Completed(r, log)
    case Tunnel => Completed(r, log)
    case Known => Abs(r.(state := BodyIdentity), log)
    case InChunks => Abs(r.(state := ChunkSizeStart), log)
    case Endless => Abs(r.(state := BodyIdentityEof), log)
  }

  lemma BlankCr(s: Abs)
    requires s.r.state.HeaderFieldStart?
    ensures ADo(s, CR) == ANext(s.(r := s.r.(state := HeadersAlmostDone)))
  {
    hide FieldFirst;
  }

  /** The headers are complete. */
  function Announced(s: Abs): Abs {
    var r := s.r.(state := HeadersDone, upgrade := UpgradeAsked(s.r));
    Abs(r, Put(s.log, EventOf(OnHeadersComplete, r)))
  }

  lemma BlankLf(s: Abs)
    requires s.r.state.HeadersAlmostDone? && HeadOver(s.r)
    ensures ADo(s, LF) == AAgain(Announced(s))
  {
    hide Put, UpgradeAsked;
  }

  lemma BodyLf(s: Abs)
    requires s.r.state.HeadersDone? && HeadOver(s.r)
    ensures var s' := Headed(s.r, s.log); ADo(s, LF) == if BodyKind(s.r).Tunnel? then AHalt(s', true) else ANext(s')
  {
    hide Put, NewMessage, MessageNeedsEof;
  }

  lemma ThroughBlank(s: Abs)
    requires LineEnded(s) && HeadOver(Settled(s).r) && Settled(s).r.state.HeaderFieldStart?
    ensures var t := Announced(Settled(s));
            Ends(s, CRLF, Headed(t.r, t.log), BodyKind(t.r).Tunnel?)
  {
    hide ADo, ARun, Put, Headed, BodyKind, HeadOver, EventOf, UpgradeAsked, Settled;
    var t := Settled(s);
    var t1 := t.(r := t.r.(state := HeadersAlmostDone));
    var t2 := Announced(t);
    BlankCr(t);
    ThroughByte(t, CR, t1);
    StillOver(t.r);
    BlankLf(t1);
    SameAnnounced(t, t1);
    BodyLf(t2);
    var t3 := Headed(t2.r, t2.log);
    EndsByte(t2, LF, t3, BodyKind(t2.r).Tunnel?);
    EndsAgain(t1, LF, t2, t3, BodyKind(t2.r).Tunnel?);
    ThenEnds(t, [CR], t1, [LF], t3, BodyKind(t2.r).Tunnel?);
    assert [CR] + [LF] == CRLF;
    SettleEnds(s, CRLF, t3, BodyKind(t2.r).Tunnel?);
  }

  lemma SameAnnounced(t: Abs, t1: Abs)
    requires t1 == t.(r := t.r.(state := HeadersAlmostDone))
    ensures Announced(t1) == Announced(t)
  {
  }

  lemma SettleEnds(s: Abs, text: string, s': Abs, stops: bool)
    requires LineEnded(s) && text != "" && text[0] != ' ' && text[0] != HTAB && Ends(Settled(s), text, s', stops)
    ensures Ends(s, text, s', stops)
  {
    hide ADo, ARun;
    if !s.r.state.HeaderFieldStart? {
      SettleByte(s, text[0]);
      AStepRun(s, text, 0);
    }
  }

  lemma StillOver(r: Regs)
    requires HeadOver(r)
    ensures HeadOver(r.(state := HeadersAlmostDone))
    ensures HeadOver(r.(state := HeadersDone, upgrade := UpgradeAsked(r)))
  {
  }

  /** Two announcements of the body that do not agree are refused at the end of the head; the application does not
      hear that the headers are complete. */
  lemma BothRefused(s: Abs)
    requires LineEnded(s) && Settled(s).r.state.HeaderFieldStart? && !Settled(s).r.flags.trailing
    requires Settled(s).r.flags.chunked && Settled(s).r.flags.contentLength
    ensures var o := ARun(s, CRLF, 0);
            o.stopped && o.at == 1 && o.s.r.errno == UnexpectedContentLength && o.s.log == Settled(s).log
  {
    hide ADo, ARun, Settled;
    var t := Settled(s);
    var t1 := t.(r := t.r.(state := HeadersAlmostDone));
    BlankCr(t);
    ThroughByte(t, CR, t1);
    Settle(s, [CR], t1);
    assert ADo(t1, LF) == AHalt(t1.(r := t1.r.(errno := UnexpectedContentLength)), false) by { RefusedLf(t1); }
    FailsAt(s, [CR], t1, LF, "", t1.(r := t1.r.(errno := UnexpectedContentLength)));
    assert [CR] + [LF] + "" == CRLF;
  }

  lemma RefusedLf(s: Abs)
    requires s.r.state.HeadersAlmostDone? && !s.r.flags.trailing && s.r.flags.chunked && s.r.flags.contentLength
    ensures ADo(s, LF) == AHalt(s.(r := s.r.(errno := UnexpectedContentLength)), false)
  {
  }

  // ----- a body of known length -----

  /** Within a body or a chunk, `b` of which has been read. */
  function Partly(s: Abs, b: string): Abs {
    Abs(s.r.(clen := if |b| <= s.r.clen then s.r.clen - |b| else 0), Put(s.log, Data(Body, b)))
  }

  lemma BodyByte(s: Abs, ch: char)
    requires (s.r.state.BodyIdentity? || s.r.state.ChunkData?) && s.r.clen > 1
    ensures ADo(s, ch) == ANext(Abs(s.r.(clen := s.r.clen - 1), Put(s.log, Data(Body, [ch]))))
  {
    assert Transition(s.r, ch, false) == Go(s.r.(clen := s.r.clen - 1), Open(Body), Quiet, Advance);
    hide Transition, Put, ADo;
    DataByte(s, ch, s.r.(clen := s.r.clen - 1), Open(Body), Body);
  }

  lemma {:induction false} ThroughSome(s: Abs, b: string)
    requires (s.r.state.BodyIdentity? || s.r.state.ChunkData?) && 0 < |b| < s.r.clen
    ensures Through(s, b, Partly(s, b))
  {
    hide ADo, Through, Put;
    var n := |b| - 1;
    var w := b[..n];
    assert b == w + [b[n]];
    if n == 0 {
      assert b == [b[0]];
      BodyByte(s, b[0]);
      ThroughByte(s, b[0], Partly(s, b));
    } else {
      ThroughSome(s, w);
      BodyByte(Partly(s, w), b[n]);
      PutTwice(s.log, Body, w, [b[n]]);
      ThenByte(s, w, Partly(s, w), b[n], Partly(s, b));
    }
  }

  lemma LastByte(s: Abs, ch: char)
    requires s.r.state.BodyIdentity? && s.r.clen == 1
    ensures ADo(s, ch) == AAgain(Abs(s.r.(clen := 0, state := MessageDone), Put(s.log, Data(Body, [ch]))))
  {
    assert Transition(s.r, ch, false) == Go(s.r.(clen := 0, state := MessageDone), Open(Body), Flush(Body, true),
                                            Reread);
    PutTwice(s.log, Body, "", [ch]);
    assert "" + [ch] == [ch];
    hide Transition, Put;
  }

  lemma DoneByte(s: Abs, ch: char)
    requires s.r.state.MessageDone?
    ensures var s' := Completed(s.r, s.log); ADo(s, ch) == if s.r.upgrade then AHalt(s', true) else ANext(s')
  {
    hide Put;
  }

  /** All but the last byte of `b`, or nothing. */
  lemma ThroughAllButOne(s: Abs, b: string) returns (s1: Abs)
    requires (s.r.state.BodyIdentity? || s.r.state.ChunkData?) && 0 < |b| == s.r.clen
    ensures var w := b[..|b| - 1];
            && b == w + [b[|b| - 1]] && Through(s, w, s1) && s1.r == s.r.(clen := 1)
            && Put(s1.log, Data(Body, [b[|b| - 1]])) == Put(s.log, Data(Body, b))
  {
    hide ADo, Through, Put;
    var w := b[..|b| - 1];
    if w == "" {
      Nothing(s);
      s1 := s;
      assert [b[|b| - 1]] == b;
    } else {
      ThroughSome(s, w);
      s1 := Partly(s, w);
      PutTwice(s.log, Body, w, [b[|b| - 1]]);
      assert w + [b[|b| - 1]] == b;
    }
  }

  /** Reading a whole body of known length. */
  lemma ThroughBody(s: Abs, b: string)
    requires s.r.state.BodyIdentity? && 0 < |b| == s.r.clen
    ensures Ends(s, b, Completed(s.r.(clen := 0), Put(s.log, Data(Body, b))), s.r.upgrade)
  {
    hide ADo, ARun, Put;
    var ch := b[|b| - 1];
    var s1 := ThroughAllButOne(s, b);
    var s2 := Abs(s.r.(clen := 0, state := MessageDone), Put(s.log, Data(Body, b)));
    var s3 := Completed(s2.r, s2.log);
    LastByte(s1, ch);
    DoneByte(s2, ch);
    EndsByte(s2, ch, s3, s.r.upgrade);
    EndsAgain(s1, ch, s2, s3, s.r.upgrade);
    ThenEnds(s, b[..|b| - 1], s1, [ch], s3, s.r.upgrade);
  }

  // ----- chunks -----

  lemma SizeCr(s: Abs)
    requires s.r.state.ChunkSize? || s.r.state.ChunkParameters?
    ensures ADo(s, CR) == ANext(s.(r := s.r.(state := ChunkSizeAlmostDone)))
  {
  }

  lemma SizeLf(s: Abs)
    requires s.r.state.ChunkSizeAlmostDone?
    ensures ADo(s, LF) ==
            ANext(Abs(if s.r.clen == 0 then s.r.(flags := s.r.flags.(trailing := true), state := HeaderFieldStart)
                      else s.r.(state := ChunkData),
                      Put(s.log, ChunkHeader(s.r.clen))))
  {
    hide Put;
  }

  lemma LastChunkByte(s: Abs, ch: char)
    requires s.r.state.ChunkData? && s.r.clen == 1
    ensures ADo(s, ch) == ANext(Abs(s.r.(clen := 0, state := ChunkDataAlmostDone), Put(s.log, Data(Body, [ch]))))
  {
    assert Transition(s.r, ch, false) == Go(s.r.(clen := 0, state := ChunkDataAlmostDone), Open(Body), Quiet, Advance);
    hide Transition, Put, ADo;
    DataByte(s, ch, s.r.(clen := 0, state := ChunkDataAlmostDone), Open(Body), Body);
  }

  lemma ChunkCr(s: Abs)
    requires s.r.state.ChunkDataAlmostDone?
    ensures ADo(s, CR) == ANext(s.(r := s.r.(state := ChunkDataDone)))
  {
  }

  lemma ChunkLf(s: Abs)
    requires s.r.state.ChunkDataDone?
    ensures ADo(s, LF) == ANext(Abs(s.r.(state := ChunkSizeStart), Put(s.log, ChunkComplete)))
  {
    hide Put;
  }

  /** What may follow the size of a chunk. */
  predicate GoodExtension(x: string) {
    x == "" || ((x[0] == ';' || x[0] == ' ') && forall k :: 0 <= k < |x| ==> x[k] != CR)
  }

  lemma ExtensionByte(s: Abs, ch: char)
    requires (s.r.state.ChunkSize? && (ch == ';' || ch == ' ')) || (s.r.state.ChunkParameters? && ch != CR)
    ensures ADo(s, ch) == ANext(s.(r := s.r.(state := ChunkParameters)))
  {
  }

  lemma {:induction false} ThroughExtension(s: Abs, x: string)
    requires s.r.state.ChunkSize? && GoodExtension(x)
    ensures Through(s, x, s.(r := s.r.(state := if x == "" then ChunkSize else ChunkParameters)))
  {
    hide ADo, Through;
    var n := |x| - 1;
    if x == "" {
      Nothing(s);
    } else {
      var w := x[..n];
      assert w + [x[n]] == x && GoodExtension(w);
      ThroughExtension(s, w);
      var s1 := s.(r := s.r.(state := if w == "" then ChunkSize else ChunkParameters));
      ExtensionByte(s1, x[n]);
      ThenByte(s, w, s1, x[n], s.(r := s.r.(state := ChunkParameters)));
    }
  }

  /** The size line of a chunk. */
  function SizeLine(n: nat, x: string): string {
    ToHexadecimal(n) + x + CRLF
  }

  /** The parser behind it. */
  function SizeRead(s: Abs, n: nat): Abs {
    Abs(if n == 0 then s.r.(clen := 0, flags := s.r.flags.(trailing := true), state := HeaderFieldStart)
        else s.r.(clen := n, state := ChunkData),
        Put(s.log, ChunkHeader(n)))
  }

  lemma ThroughSize(s: Abs, n: nat, x: string)
    requires s.r.state.ChunkSizeStart? && n <= MAX_CHUNK && GoodExtension(x)
    ensures Through(s, SizeLine(n, x), SizeRead(s, n))
  {
    hide ADo, Through, Put, ToHexadecimal, GoodExtension;
    var s2 := ThroughSizeCr(s, n, x);
    SizeLf(s2);
    ThenByte(s, ToHexadecimal(n) + x + [CR], s2, LF, SizeRead(s, n));
    assert ToHexadecimal(n) + x + [CR] + [LF] == SizeLine(n, x);
  }

  lemma ThroughSizeCr(s: Abs, n: nat, x: string) returns (s2: Abs)
    requires s.r.state.ChunkSizeStart? && n <= MAX_CHUNK && GoodExtension(x)
    ensures Through(s, ToHexadecimal(n) + x + [CR], s2)
    ensures s2 == Abs(s.r.(state := ChunkSizeAlmostDone, clen := n), s.log)
  {
    hide ADo, Through, Put, ToHexadecimal, GoodExtension;
    var d := ToHexadecimal(n);
    ChunkSizeExact(s, d, "");
    var s0 := Sized(s, n);
    ThroughExtension(s0, x);
    var s1 := s0.(r := s0.r.(state := if x == "" then ChunkSize else ChunkParameters));
    Then(s, d, s0, x, s1);
    s2 := s1.(r := s1.r.(state := ChunkSizeAlmostDone));
    SizeCr(s1);
    ThenByte(s, d + x, s1, CR, s2);
  }

  function ChunkText(c: string, x: string): string {
    SizeLine(|c|, x) + c + CRLF
  }

  /** Reading a whole chunk. */
  lemma ThroughChunk(s: Abs, c: string, x: string)
    requires s.r.state.ChunkSizeStart? && 0 < |c| <= MAX_CHUNK && GoodExtension(x)
    ensures Through(s, ChunkText(c, x),
                    Abs(s.r.(clen := 0), Put(Put(Put(s.log, ChunkHeader(|c|)), Data(Body, c)), ChunkComplete)))
  {
    hide ADo, Through, Put, SizeLine, GoodExtension;
    ThroughSize(s, |c|, x);
    var s1 := SizeRead(s, |c|);
    var s2 := ThroughAllButOne(s1, c);
    LastChunkByte(s2, c[|c| - 1]);
    var log := Put(s1.log, Data(Body, c));
    var s3 := Abs(s.r.(clen := 0, state := ChunkDataAlmostDone), log);
    ThenByte(s1, c[..|c| - 1], s2, c[|c| - 1], s3);
    Then(s, SizeLine(|c|, x), s1, c, s3);
    var s4 := Abs(s.r.(clen := 0, state := ChunkDataDone), log);
    var s5 := Abs(s.r.(clen := 0), Put(log, ChunkComplete));
    ChunkCr(s3);
    ChunkLf(s4);
    ThroughByte(s3, CR, s4);
    ThenByte(s3, [CR], s4, LF, s5);
    assert [CR] + [LF] == CRLF;
    Then(s, SizeLine(|c|, x) + c, s3, CRLF, s5);
  }

  lemma TrailerLf(s: Abs)
    requires s.r.state.HeadersAlmostDone? && s.r.flags.trailing
    ensures ADo(s, LF) == AAgain(Abs(s.r.(state := MessageDone), Put(s.log, ChunkComplete)))
  {
    hide Put;
  }

  /** The parser at the end of a body in chunks. */
  function Trailed(s: Abs): Abs {
    Completed(s.r.(state := MessageDone), Put(s.log, ChunkComplete))
  }

  /** The empty line behind the last chunk and the headers that follow it. */
  lemma ThroughTrailerEnd(s: Abs)
    requires LineEnded(s) && Settled(s).r.state.HeaderFieldStart? && Settled(s).r.flags.trailing
    ensures Ends(s, CRLF, Trailed(Settled(s)), Settled(s).r.upgrade)
  {
    hide ADo, ARun, Put, NewMessage, Settled;
    var t := Settled(s);
    var t1 := t.(r := t.r.(state := HeadersAlmostDone));
    var t2 := Abs(t.r.(state := MessageDone), Put(t.log, ChunkComplete));
    var t3 := Trailed(t);
    BlankCr(t);
    ThroughByte(t, CR, t1);
    TrailerLf(t1);
    DoneByte(t2, LF);
    EndsByte(t2, LF, t3, t.r.upgrade);
    EndsAgain(t1, LF, t2, t3, t.r.upgrade);
    ThenEnds(t, [CR], t1, [LF], t3, t.r.upgrade);
    assert [CR] + [LF] == CRLF;
    SettleEnds(s, CRLF, t3, t.r.upgrade);
  }

  // ----- a body that lasts to the end of the stream -----

  lemma EndlessByte(s: Abs, ch: char)
    requires s.r.state.BodyIdentityEof?
    ensures ADo(s, ch) == ANext(Abs(s.r, Put(s.log, Data(Body, [ch]))))
  {
    assert Transition(s.r, ch, false) == Go(s.r, Open(Body), Quiet, Advance);
    hide Transition, Put, ADo;
    DataByte(s, ch, s.r, Open(Body), Body);
  }

  lemma {:induction false} ThroughEndless(s: Abs, b: string)
    requires s.r.state.BodyIdentityEof? && b != ""
    ensures Through(s, b, Abs(s.r, Put(s.log, Data(Body, b))))
  {
    hide ADo, Through, Put;
    var n := |b| - 1;
    var w := b[..n];
    assert b == w + [b[n]];
    if n == 0 {
      assert b == [b[0]];
      EndlessByte(s, b[0]);
      ThroughByte(s, b[0], Abs(s.r, Put(s.log, Data(Body, b))));
    } else {
      ThroughEndless(s, w);
      var s1 := Abs(s.r, Put(s.log, Data(Body, w)));
      EndlessByte(s1, b[n]);
      PutTwice(s.log, Body, w, [b[n]]);
      ThenByte(s, w, s1, b[n], Abs(s.r, Put(s.log, Data(Body, b))));
    }
  }
}
