/** What the parser tolerates: other ways to write a message that mean the same, and what they change where they do not;
    and announcements of the body that it does not tolerate. */
module HttpSpellings {
  import opened Bytes
  import opened HttpTypes
  import opened HttpAutomaton
  import opened HttpInvariant
  import opened HttpStream
  import opened HttpFeed
  import opened HttpNames
  import opened HttpNumbers
  import opened HttpHeaders
  import opened HttpConnection
  import opened HttpFraming
  import opened HttpStart
  import opened HttpPrinter

  // ----- line ends -----

  lemma EmptyLineByte(s: Abs, ch: char)
    requires (s.r.state.StartReq? || s.r.state.StartReqOrRes? || s.r.state.Dead?) && (ch == CR || ch == LF)
    ensures ADo(s, ch) == ANext(s)
  {
  }

  /** Empty lines in front of a request mean nothing. */
  lemma {:induction false} EmptyLinesIgnored(s: Abs, blanks: string)
    requires s.r.state.StartReq? || s.r.state.StartReqOrRes? || s.r.state.Dead?
    requires forall k :: 0 <= k < |blanks| ==> blanks[k] == CR || blanks[k] == LF
    ensures Through(s, blanks, s)
  {
    hide ADo, Through;
    var n := |blanks| - 1;
    if blanks == "" {
      Nothing(s);
    } else {
      EmptyLinesIgnored(s, blanks[..n]);
      EmptyLineByte(s, blanks[n]);
      ThenByte(s, blanks[..n], s, blanks[n], s);
      assert blanks[..n] + [blanks[n]] == blanks;
    }
  }

  /** In front of a reply they announce a message, each of them; the parser still waits for the reply. */
  lemma EmptyLineBeforeReply(s: Abs, ch: char)
    requires s.r.state.StartRes? && (ch == CR || ch == LF)
    ensures ADo(s, ch) == ANext(Abs(s.r.(flags := NO_FLAGS, clen := NO_LENGTH), Put(s.log, MessageBegin)))
  {
    hide Put;
  }

  /** The states in which a line can end. */
  predicate LineMayEnd(s: State) {
    s.ReqHttpEnd? || s.ResStatus? || s.HeaderValue? || s.HeaderValueDiscardWs?
  }

  lemma LfAfterVersion(s: Abs)
    requires s.r.state.ReqHttpEnd? || s.r.state.ResStatus?
    ensures ADo(s, LF) == ANext(s.(r := s.r.(state := HeaderFieldStart)))
  {
  }

  lemma LfAfterValue(s: Abs)
    requires s.r.state.HeaderValue?
    ensures ADo(s, LF) == AAgain(s.(r := s.r.(state := HeaderAlmostDone)))
  {
    hide ValueNext;
  }

  lemma LfAfterNoValue(s: Abs)
    requires s.r.state.HeaderValueDiscardWs?
    ensures ADo(s, LF) == ANext(s.(r := s.r.(state := HeaderValueDiscardLws)))
  {
    hide ValueFirst;
  }

  /** A line feed alone ends a line like a carriage return and a line feed. */
  lemma LfEndsLines(s: Abs) returns (s': Abs)
    requires LineMayEnd(s.r.state)
    ensures Through(s, CRLF, s') && Through(s, [LF], s')
  {
    hide ADo, Through;
    if s.r.state.ReqHttpEnd? || s.r.state.ResStatus? {
      s' := s.(r := s.r.(state := HeaderFieldStart));
      LfAfterVersion(s);
      ThroughByte(s, LF, s');
      if s.r.state.ReqHttpEnd? {
        ThroughLineEnd(s);
      } else {
        ReasonEnd(s);
      }
    } else {
      s' := Ended(s);
      ThroughEnd(s);
      if s.r.state.HeaderValue? {
        LfAfterValue(s);
        ValueLf(Crossed(s));
        ThroughByte(Crossed(s), LF, s');
        ThroughAgain(s, LF, Crossed(s), s');
      } else {
        LfAfterNoValue(s);
        ThroughByte(s, LF, s');
      }
    }
  }

  lemma BlankLineLf(s: Abs)
    requires s.r.state.HeaderFieldStart?
    ensures ADo(s, LF) == AAgain(s.(r := s.r.(state := HeadersAlmostDone)))
  {
    hide FieldFirst;
  }

  /** The same at the end of the head, and at the end of a message in chunks. */
  lemma LfEndsHeads(s: Abs, s': Abs, stops: bool)
    requires s.r.state.HeaderFieldStart? && Ends(s, CRLF, s', stops) && s'.r.errno == OK
    ensures Ends(s, [LF], s', stops)
  {
    hide ADo, ARun;
    var s1 := s.(r := s.r.(state := HeadersAlmostDone));
    BlankCr(s);
    BlankLineLf(s);
    AStepRun(s, CRLF, 0);
    RunShift(s1, [CR], [LF], 0);
    assert [CR] + [LF] == CRLF;
    AStepRun(s, [LF], 0);
  }

  // ----- spaces -----

  lemma FirstLineSpace(s: Abs)
    requires s.r.state.ReqSpacesBeforeUrl? || s.r.state.ReqHttpStart? || s.r.state.ResFirstStatusCode?
    ensures ADo(s, ' ') == ANext(s)
  {
  }

  /** More than one space in front of the target, the version or the status means nothing. */
  lemma {:induction false} SpacesIgnored(s: Abs, n: nat)
    requires s.r.state.ReqSpacesBeforeUrl? || s.r.state.ReqHttpStart? || s.r.state.ResFirstStatusCode?
    ensures Through(s, seq(n, _ => ' '), s)
  {
    hide ADo, Through;
    if n == 0 {
      Nothing(s);
    } else {
      SpacesIgnored(s, n - 1);
      FirstLineSpace(s);
      ThenByte(s, seq(n - 1, _ => ' '), s, ' ', s);
      assert seq(n, _ => ' ') == seq(n - 1, _ => ' ') + [' '];
    }
  }

  lemma CodeLineEnd(s: Abs, ch: char)
    requires s.r.state.ResStatusCode? && (ch == CR || ch == LF)
    ensures ADo(s, ch) == AAgain(s.(r := s.r.(state := ResStatusStart)))
  {
  }

  lemma NoReasonLf(s: Abs)
    requires s.r.state.ResStatusStart?
    ensures ADo(s, LF) == AAgain(Abs(s.r.(state := ResStatus, index := 0), Put(s.log, Data(DataKind.Status, ""))))
  {
    hide Put;
  }

  /** A status line may end behind the status, as if an empty reason followed. */
  lemma WithoutReason(s: Abs) returns (s': Abs)
    requires s.r.state.ResStatusCode?
    ensures Through(s, CRLF, s') && Through(s, " " + CRLF, s') && Through(s, [LF], s')
    ensures s' == Abs(s.r.(state := HeaderFieldStart, index := 0), Put(s.log, Data(DataKind.Status, "")))
  {
    hide ADo, ARun, Put;
    var s1 := s.(r := s.r.(state := ResStatusStart));
    s' := Abs(s.r.(state := HeaderFieldStart, index := 0), Put(s.log, Data(DataKind.Status, "")));
    ThroughReasonLine(s1, "");
    assert "" + CRLF == CRLF && [' '] == " ";
    CodeEnd(s);
    ThroughByte(s, ' ', s1);
    Then(s, " ", s1, CRLF, s');
    CodeLineEnd(s, CR);
    AStepRun(s, CRLF, 0);
    var s2 := Abs(s.r.(state := ResStatus, index := 0), Put(s.log, Data(DataKind.Status, "")));
    CodeLineEnd(s, LF);
    NoReasonLf(s1);
    LfAfterVersion(s2);
    ThroughByte(s2, LF, s');
    ThroughAgain(s1, LF, s2, s');
    ThroughAgain(s, LF, s1, s');
  }

  lemma LengthSpace(s: Abs)
    requires s.r.state.HeaderValue? && (s.r.hstate.ContentLengthNum? || s.r.hstate.ContentLengthWs?) && s.r.errno == OK
    ensures ADo(s, ' ') == ANext(Abs(s.r.(hstate := ContentLengthWs), Put(s.log, Data(Value, " "))))
  {
    assert ValueNext(s.r, ' ') == s.r.(hstate := ContentLengthWs);
    hide ADo, Put, ValueNext;
    NextValueByte(s, ' ');
    assert [' '] == " ";
  }

  /** Spaces behind a length belong to its value, but not to the number; behind them there are no more digits. */
  lemma {:induction false} SpacesBehindLength(s: Abs, n: nat, ch: char)
    requires s.r.state.HeaderValue? && s.r.hstate.ContentLengthNum? && s.r.errno == OK && n > 0
    ensures var spaces, s' := seq(n, _ => ' '), Abs(s.r.(hstate := ContentLengthWs), s.log);
            && Through(s, spaces, s'.(log := Put(s.log, Data(Value, spaces))))
            && (IsNum(ch) ==> ADo(s', ch) == AHalt(s'.(r := s'.r.(errno := InvalidContentLength)), false))
  {
    hide ADo, Through, Put;
    var s' := Abs(s.r.(hstate := ContentLengthWs), Put(s.log, Data(Value, seq(n, _ => ' '))));
    if n == 1 {
      assert seq(n, _ => ' ') == " " == [' '];
      LengthSpace(s);
      ThroughByte(s, ' ', s');
    } else {
      SpacesBehindLength(s, n - 1, ch);
      var s1 := Abs(s.r.(hstate := ContentLengthWs), Put(s.log, Data(Value, seq(n - 1, _ => ' '))));
      LengthSpace(s1);
      assert seq(n, _ => ' ') == seq(n - 1, _ => ' ') + [' '] && [' '] == " ";
      PutTwice(s.log, Value, seq(n - 1, _ => ' '), " ");
      ThenByte(s, seq(n - 1, _ => ' '), s1, ' ', s');
    }
    if IsNum(ch) {
      DigitBehindSpace(Abs(s.r.(hstate := ContentLengthWs), s.log), ch);
    }
  }

  lemma DigitBehindSpace(s: Abs, ch: char)
    requires s.r.state.HeaderValue? && s.r.hstate.ContentLengthWs? && s.r.errno == OK && IsNum(ch)
    ensures ADo(s, ch) == AHalt(s.(r := s.r.(errno := InvalidContentLength)), false)
  {
  }

  // ----- the oldest requests -----

  lemma OldEnd(s: Abs, ch: char)
    requires PartOf(s.r.state).WithinUrl? && (ch == CR || ch == LF)
    requires !s.r.state.ReqSchema? && !s.r.state.ReqSchemaSlash? && !s.r.state.ReqSchemaSlashSlash?
             && !s.r.state.ReqServerStart?
    ensures ADo(s, ch) ==
            ANext(s.(r := s.r.(state := if ch == CR then ReqLineAlmostDone else HeaderFieldStart, major := 0,
                               minor := 9)))
  {
  }

  /** A request line that ends behind the target stands for version 0.9; headers follow as usual. */
  lemma WithoutVersion(s: Abs, meth: Method, t: string)
    requires s.r.state.StartReq? && GoodTarget(meth == CONNECT, t)
    ensures Through(s, MethodString(meth) + " " + t + CRLF, Started(s, Asking(meth, t), 0, 9))
  {
    hide ADo, Through, MethodString, PartOf, Put, TargetState;
    var w := MethodString(meth);
    var s1 := ThroughMethod(s, meth);
    TargetWithin(meth == CONNECT, t);
    ThroughTarget(s1, t);
    var s2 := Targeted(s1, t);
    Then(s, w + " ", s1, t, s2);
    OldEnd(s2, CR);
    var s3 := s2.(r := s2.r.(state := ReqLineAlmostDone, major := 0, minor := 9));
    OldLf(s3);
    ThenByte(s, w + " " + t, s2, CR, s3);
    StartLog(s.log, Url, t);
    ThenByte(s, w + " " + t + [CR], s3, LF, Started(s, Asking(meth, t), 0, 9));
    assert w + " " + t + [CR] + [LF] == w + " " + t + CRLF;
  }

  lemma OldLf(s: Abs)
    requires s.r.state.ReqLineAlmostDone?
    ensures ADo(s, LF) == ANext(s.(r := s.r.(state := HeaderFieldStart)))
  {
  }

  // ----- values on several lines -----

  lemma FoldByte(s: Abs, ch: char)
    requires s.r.state.HeaderValueLws? && (ch == ' ' || ch == HTAB)
    ensures ADo(s, ch) == AAgain(s.(r := s.r.(state := HeaderValueStart)))
  {
    hide FinishHeader, ValueFirst;
  }

  /** A line without a value is continued in the same way, and the value may still come. */
  lemma EmptyFold(s: Abs, ch: char)
    requires s.r.state.HeaderValueDiscardLws? && (ch == ' ' || ch == HTAB)
    ensures ADo(s, ch) == ANext(s.(r := s.r.(state := HeaderValueDiscardWs)))
  {
    hide FinishHeader, ValueFirst;
  }

  /** The words that a value has been recognized as. */
  predicate Recognized(h: HState) {
    h.General? || h.ContentLengthNum? || h.ContentLengthWs? || h.MatchingChunked? || h.ConnToken?
    || h.MatchingKeepAlive? || h.MatchingClose? || h.MatchingConnUpgrade? || h.TransferEncodingChunked?
    || h.ConnectionKeepAlive? || h.ConnectionClose? || h.ConnectionUpgrade?
  }

  lemma FoldedFirst(s: Abs, ch: char)
    requires s.r.state.HeaderValueStart? && Recognized(s.r.hstate)
    ensures ADo(s, ch) ==
            ANext(Abs(s.r.(state := HeaderValue, hstate := General, index := 0), Put(s.log, Data(Value, [ch]))))
  {
    var r := s.r.(state := HeaderValue, hstate := General, index := 0);
    assert Transition(s.r, ch, false) == Go(r, Open(Value), Quiet, Advance) by { hide Lower; }
    hide Transition, Put, ADo;
    DataByte(s, ch, r, Open(Value), Value);
  }

  lemma {:induction false} ThroughPlain(s: Abs, v: string)
    requires s.r.state.HeaderValue? && s.r.hstate.General? && s.r.errno == OK && v != ""
    requires forall k :: 0 <= k < |v| ==> IsHeaderChar(v[k]) && v[k] != CR && v[k] != LF
    ensures Through(s, v, Abs(s.r, Put(s.log, Data(Value, v))))
  {
    hide ADo, Through, Put, IsHeaderChar, ValueNext;
    var n := |v| - 1;
    var w := v[..n];
    assert v == w + [v[n]];
    Inert(s.r, v[n]);
    if n == 0 {
      assert v == [v[0]];
      NextValueByte(s, v[0]);
      ThroughByte(s, v[0], Abs(s.r, Put(s.log, Data(Value, v))));
    } else {
      ThroughPlain(s, w);
      var s1 := Abs(s.r, Put(s.log, Data(Value, w)));
      NextValueByte(s1, v[n]);
      PutTwice(s.log, Value, w, [v[n]]);
      ThenByte(s, w, s1, v[n], Abs(s.r, Put(s.log, Data(Value, v))));
    }
  }

  /** A line that begins with a space or a tab continues the value, and that byte belongs to it. What the value so far
      has been recognized as is forgotten: a "close" that ends on a line that is continued does not count. */
  lemma ThroughFold(s: Abs, ch: char, v: string)
    requires s.r.state.HeaderValueLws? && s.r.errno == OK && Recognized(s.r.hstate) && (ch == ' ' || ch == HTAB)
    requires v != "" && forall k :: 0 <= k < |v| ==> IsHeaderChar(v[k]) && v[k] != CR && v[k] != LF
    ensures Through(s, [ch] + v + CRLF,
                    Abs(s.r.(hstate := General, index := 0), Put(s.log, Data(Value, [ch] + v))))
  {
    hide ADo, Through, Put, IsHeaderChar;
    var r := s.r.(state := HeaderValue, hstate := General, index := 0);
    var s0 := s.(r := s.r.(state := HeaderValueStart));
    var s1 := Abs(r, Put(s.log, Data(Value, [ch])));
    var s2 := Abs(r, Put(s.log, Data(Value, [ch] + v)));
    FoldByte(s, ch);
    FoldedFirst(s0, ch);
    ThroughByte(s0, ch, s1);
    ThroughAgain(s, ch, s0, s1);
    ThroughPlain(s1, v);
    PutTwice(s.log, Value, [ch], v);
    Then(s, [ch], s1, v, s2);
    ThroughEnd(s2);
    Then(s, [ch] + v, s2, CRLF, Ended(s2));
  }

  // ----- two announcements of the body -----

  /** A length line and a chunked line, in either order. */
  function BothFramings(n: nat, lengthFirst: bool): seq<Header> {
    var a, b := Header("Content-Length", ToDecimal(n)), Header("Transfer-Encoding", "chunked");
    if lengthFirst then [a, b] else [b, a]
  }

  lemma TwoLines(a: Header, b: Header)
    ensures PrintHeaders([a, b]) == PrintHeader(a) + PrintHeader(b)
    ensures HeaderEvents([a, b]) == HeaderEvents([a]) + HeaderEvents([b])
  {
    hide PrintHeader;
    assert [a, b][1..] == [b] && [b][1..] == [] && [a][1..] == [];
    assert PrintHeaders([b]) == PrintHeader(b) + "" == PrintHeader(b);
  }

  lemma {:induction false} PrintBoth(a: seq<Header>, b: seq<Header>)
    ensures PrintHeaders(a + b) == PrintHeaders(a) + PrintHeaders(b)
    decreases |a|
  {
    hide PrintHeader;
    if a == [] {
      assert a + b == b;
    } else {
      PrintBoth(a[1..], b);
      assert (a + b)[1..] == a[1..] + b;
    }
  }

  lemma {:induction false} EventsOfBoth(a: seq<Header>, b: seq<Header>)
    ensures HeaderEvents(a + b) == HeaderEvents(a) + HeaderEvents(b)
    decreases |a|
  {
    if a == [] {
      assert a + b == b;
    } else {
      EventsOfBoth(a[1..], b);
      assert (a + b)[1..] == a[1..] + b;
    }
  }

  lemma ThroughBothFramings(s: Abs, n: nat, lengthFirst: bool) returns (s': Abs)
    requires s.r.state.HeaderFieldStart? && s.r.errno == OK && ReadyForField(s.log) && n <= MAX_LENGTH
    requires !s.r.flags.contentLength && !s.r.flags.trailing
    ensures Through(s, PrintHeaders(BothFramings(n, lengthFirst)), s') && LineEnded(s')
    ensures var t := Settled(s');
            && t.r.state.HeaderFieldStart? && t.r.flags.chunked && t.r.flags.contentLength && !t.r.flags.trailing
            && t.log == s.log + HeaderEvents(BothFramings(n, lengthFirst))
  {
    hide Through, PrintHeader, PrintHeaders, HeaderEvents, ToDecimal, Settled, LineEnded;
    var a, b := Header("Content-Length", ToDecimal(n)), Header("Transfer-Encoding", "chunked");
    var p, q := if lengthFirst then a else b, if lengthFirst then b else a;
    var s1;
    if lengthFirst {
      s1 := ThroughLengthLine(s, n, " ");
    } else {
      s1 := ThroughEncodingLine(s);
    }
    SettledNoError(s1);
    ReadyBehind(s.log, p);
    var t := Settled(s1);
    if lengthFirst {
      s' := ThroughEncodingLine(t);
    } else {
      s' := ThroughLengthLine(t, n, " ");
    }
    LineText(q);
    Settle(s1, PrintHeader(q), s');
    Then(s, PrintHeader(p), s1, PrintHeader(q), s');
    TwoLines(p, q);
    assert s.log + HeaderEvents([p]) + HeaderEvents([q]) == s.log + (HeaderEvents([p]) + HeaderEvents([q]));
  }

  lemma LineText(h: Header)
    requires h.name == "Content-Length" || h.name == "Transfer-Encoding"
    ensures PrintHeader(h) != "" && PrintHeader(h)[0] != ' ' && PrintHeader(h)[0] != HTAB
  {
    assert PrintHeader(h)[0] == h.name[0];
  }

  lemma ReadyBehind(log: seq<Event>, h: Header)
    requires ReadyForField(log)
    ensures ReadyForField(log + HeaderEvents([h]))
  {
    PutHeader(log, h);
    assert [h][1..] == [];
    assert HeaderEvents([h]) == [Data(Field, h.name), Data(Value, h.value)];
  }

  /** A message that announces its body by a length and in chunks is refused at the last byte of its head; the
      application has seen the headers but does not hear that they are complete. */
  lemma BothFramingsRefused(s: Abs, start: Start, major: Digit, minor: Digit, hs: seq<Header>, n: nat,
                            lengthFirst: bool)
    requires Waits(s.r, start.Asking?) && GoodStart(start) && (forall h :: h in hs ==> GoodHeader(h)) && n <= MAX_LENGTH
    ensures var all := hs + BothFramings(n, lengthFirst);
            var head := StartLine(start, major, minor) + PrintHeaders(all) + CRLF;
            var o := ARun(s, head, 0);
            && o.stopped && o.at == |head| - 1 && o.s.r.errno == UnexpectedContentLength
            && o.s.log == s.log + StartEvents(start) + HeaderEvents(all)
  {
    hide ARun, StartLine, PrintHeaders, HeaderEvents, Started, GoodStart, Settled, BothFramings, WithHeaders, LineEnded,
         Waits;
    var line, both := StartLine(start, major, minor), BothFramings(n, lengthFirst);
    var s1 := Started(s, start, major, minor);
    ThroughStartLine(s, start, major, minor);
    StartedWith(s, start, major, minor);
    var s2 := ThroughHeaders(s1, hs);
    SettledNoError(s2);
    OnlyTheseFlags(hs);
    var s3 := ThroughBothFramings(Settled(s2), n, lengthFirst);
    BothText(n, lengthFirst);
    Settle(s2, PrintHeaders(both), s3);
    Then(s1, PrintHeaders(hs), s2, PrintHeaders(both), s3);
    PrintBoth(hs, both);
    EventsOfBoth(hs, both);
    Then(s, line, s1, PrintHeaders(hs + both), s3);
    BothRefused(s3);
    RunSplit(s, line + PrintHeaders(hs + both), CRLF, 0);
    RunShift(s3, line + PrintHeaders(hs + both), CRLF, 0);
    assert s1.log + HeaderEvents(hs) + HeaderEvents(both) == s1.log + HeaderEvents(hs + both);
  }

  lemma StartedWith(s: Abs, start: Start, major: Digit, minor: Digit)
    requires Waits(s.r, start.Asking?)
    ensures var s' := Started(s, start, major, minor);
            && s'.r.state.HeaderFieldStart? && s'.r.flags == NO_FLAGS && s'.r.errno == OK
            && s'.log == s.log + StartEvents(start)
  {
    hide MethodString;
  }

  lemma BothText(n: nat, lengthFirst: bool)
    ensures var text := PrintHeaders(BothFramings(n, lengthFirst)); text != "" && text[0] != ' ' && text[0] != HTAB
  {
    hide ToDecimal, PrintHeader;
    var hs := BothFramings(n, lengthFirst);
    TwoLines(hs[0], hs[1]);
    LineText(hs[0]);
    assert PrintHeaders(hs)[0] == PrintHeader(hs[0])[0];
  }

  lemma SecondLengthByte(s: Abs, ch: char)
    requires (s.r.state.HeaderValueDiscardWs? || s.r.state.HeaderValueStart?) && s.r.hstate.ContentLength?
    requires s.r.flags.contentLength && IsNum(ch)
    ensures var x := ADo(s, ch); x.AHalt? && !x.used && x.s.r.errno == UnexpectedContentLength && x.s.log == s.log
  {
  }

  /** A second length, the same or another, is refused at its first digit. */
  lemma SecondLengthRefused(s: Abs, gap: string, d: string, rest: string)
    requires s.r.state.HeaderFieldStart? && s.r.errno == OK && s.r.flags.contentLength && Blank(gap)
    requires d != "" && AreDigits(d)
    ensures var line := "Content-Length:" + gap + d + rest;
            var o := ARun(s, line, 0);
            o.stopped && o.at == 15 + |gap| && o.s.r.errno == UnexpectedContentLength
  {
    hide ADo, ARun, Recognize, Put, Blank, AreTokens;
    LengthName();
    ThroughIntro(s, "Content-Length", gap);
    var a := "Content-Length" + ":" + gap;
    var s1 := Introduced(s, "Content-Length");
    assert IsNum(d[0]);
    SecondLengthByte(s1, d[0]);
    FailsAt(s, a, s1, d[0], d[1..] + rest, ADo(s1, d[0]).s);
    assert a + [d[0]] + (d[1..] + rest) == "Content-Length:" + gap + d + rest;
  }
}
