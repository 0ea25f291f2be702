/** Reading whole header lines. */
module HttpHeaders {
  import opened Bytes
  import opened HttpTypes
  import opened HttpAutomaton
  import opened HttpInvariant
  import opened HttpStream
  import opened HttpFeed
  import opened HttpNames
  import opened HttpConnection

  /** A header line; `gap` stands between the colon and the value. */
  datatype Header = Header(name: string, value: string, gap: string := " ")

  const CRLF: string := [CR, LF]

  function PrintHeader(h: Header): string {
    h.name + ":" + h.gap + h.value + CRLF
  }

  function PrintHeaders(hs: seq<Header>): string {
    if hs == [] then "" else PrintHeader(hs[0]) + PrintHeaders(hs[1..])
  }

  predicate GoodValue(v: string) {
    && (v != "" ==> v[0] != ' ' && v[0] != HTAB)
    && forall k :: 0 <= k < |v| ==> IsHeaderChar(v[k]) && v[k] != CR && v[k] != LF
  }

  /** Spaces and tabs. */
  predicate Blank(g: string) {
    forall k :: 0 <= k < |g| ==> g[k] == ' ' || g[k] == HTAB
  }

  /** A header that does not announce a body. */
  predicate GoodHeader(h: Header) {
    && h.name != "" && AreTokens(h.name) && Blank(h.gap) && GoodValue(h.value)
    && LowerName(h.name) != "content-length" && LowerName(h.name) != "transfer-encoding"
  }

  /** A header about the connection. */
  predicate IsConnection(h: Header) {
    LowerName(h.name) == "connection" || LowerName(h.name) == "proxy-connection"
  }

  /** A header that names a protocol to change to. */
  predicate NamesProtocol(h: Header) {
    LowerName(h.name) == "upgrade" && h.value != ""
  }

  /** The flags behind a header. */
  ghost function WithHeader(f: Flags, h: Header): Flags {
    if IsConnection(h) then WithItems(f, Items(h.value))
    else if NamesProtocol(h) then f.(upgrade := true) else f
  }

  ghost function WithHeaders(f: Flags, hs: seq<Header>): Flags {
    if hs == [] then f else WithHeader(WithHeaders(f, hs[..|hs| - 1]), hs[|hs| - 1])
  }

  /** One of the headers about the connection asks for the word. */
  ghost predicate AnyAsks(word: string, hs: seq<Header>) {
    exists h :: h in hs && IsConnection(h) && Asks(word, h.value)
  }

  ghost predicate AnyNamesProtocol(hs: seq<Header>) {
    exists h :: h in hs && NamesProtocol(h)
  }

  /** What a header does to the flags. */
  lemma WithHeaderMeans(f: Flags, h: Header)
    ensures WithHeader(f, h) ==
            f.(keepAlive := f.keepAlive || (IsConnection(h) && Asks("keep-alive", h.value)),
               close := f.close || (IsConnection(h) && Asks("close", h.value)),
               connUpgrade := f.connUpgrade || (IsConnection(h) && Asks("upgrade", h.value)),
               upgrade := f.upgrade || NamesProtocol(h))
  {
  }

  /** The flags behind all headers, in whichever order they come. */
  lemma {:induction false} WithHeadersMeans(f: Flags, hs: seq<Header>)
    ensures WithHeaders(f, hs) ==
            f.(keepAlive := f.keepAlive || AnyAsks("keep-alive", hs), close := f.close || AnyAsks("close", hs),
               connUpgrade := f.connUpgrade || AnyAsks("upgrade", hs), upgrade := f.upgrade || AnyNamesProtocol(hs))
  {
    hide IsConnection, NamesProtocol, Asks, WithHeader;
    if hs != [] {
      var n := |hs| - 1;
      WithHeadersMeans(f, hs[..n]);
      WithHeaderMeans(WithHeaders(f, hs[..n]), hs[n]);
      assert forall h :: h in hs <==> h in hs[..n] || h == hs[n];
    }
  }

  /** The callbacks a header stands for. */
  function HeaderEvents(hs: seq<Header>): seq<Event> {
    if hs == [] then [] else [Data(Field, hs[0].name), Data(Value, hs[0].value)] + HeaderEvents(hs[1..])
  }

  lemma ByAct(s: Abs, ch: char, a: Act)
    requires Transition(s.r, ch, false) == a
    ensures ADo(s, ch) == AApply(s, a, ch)
  {
    hide Transition;
  }

  lemma PutNew(log: seq<Event>, e: Event)
    requires log != [] && (e.Data? ==> !(log[|log| - 1].Data? && log[|log| - 1].kind == e.kind))
    ensures Put(log, e) == log + [e]
  {
  }

  /** Behind the end of a header line; an empty value is reported with the next byte. */
  ghost predicate LineEnded(s: Abs) {
    (s.r.state.HeaderFieldStart? || s.r.state.HeaderValueLws? || s.r.state.HeaderValueDiscardLws?) && s.r.errno == OK
  }

  /** What the next byte finds, unless it is a space or a tab that continues the line. */
  function Settled(s: Abs): Abs {
    if s.r.state.HeaderFieldStart? then s
    else if s.r.state.HeaderValueLws? then Abs(s.r.(flags := FinishHeader(s.r), state := HeaderFieldStart), s.log)
    else Abs(s.r.(flags := FinishHeader(s.r), state := HeaderFieldStart), Put(s.log, Data(Value, "")))
  }

  lemma SettleByte(s: Abs, ch: char)
    requires LineEnded(s) && !s.r.state.HeaderFieldStart? && ch != ' ' && ch != HTAB
    ensures ADo(s, ch) == AAgain(Settled(s))
  {
    hide FinishHeader, Put, ValueFirst;
  }

  lemma Settle(s: Abs, text: string, s': Abs)
    requires LineEnded(s) && text != "" && text[0] != ' ' && text[0] != HTAB && Through(Settled(s), text, s')
    ensures Through(s, text, s')
  {
    hide ADo, ARun;
    if !s.r.state.HeaderFieldStart? {
      SettleByte(s, text[0]);
      AStepRun(s, text, 0);
    }
  }

  /** Only what a header of no interest to the body can change. */
  ghost predicate SameBut(r: Regs, r': Regs) {
    r' == r.(state := r'.state, hstate := r'.hstate, index := r'.index,
             flags := r.flags.(keepAlive := r'.flags.keepAlive, close := r'.flags.close,
                               connUpgrade := r'.flags.connUpgrade, upgrade := r'.flags.upgrade))
  }

  /** The states of the value recognizer that never fail and mean nothing for the body. */
  ghost predicate Tame(r: Regs) {
    && r.state.HeaderValue? && r.errno == OK
    && (r.hstate.General? || r.hstate.ConnTokenStart? || r.hstate.ConnToken? || r.hstate.MatchingKeepAlive?
        || r.hstate.MatchingClose? || r.hstate.MatchingConnUpgrade? || r.hstate.ConnectionKeepAlive?
        || r.hstate.ConnectionClose? || r.hstate.ConnectionUpgrade?)
  }

  lemma TameNext(r: Regs, ch: char)
    requires Tame(r)
    ensures Tame(ValueNext(r, ch)) && SameBut(r, ValueNext(r, ch))
    ensures r.hstate.General? ==> ValueNext(r, ch) == r
  {
    if r.hstate.MatchingKeepAlive? || r.hstate.MatchingClose? || r.hstate.MatchingConnUpgrade? {
      TameWord(r, ch);
    } else if r.hstate.General? || r.hstate.ConnTokenStart? || r.hstate.ConnToken? {
      TameItem(r, ch);
    } else {
      TameEnd(r, ch);
    }
    hide ValueNext;
  }

  /** Before an item of a list, and within one that does not count. */
  lemma TameItem(r: Regs, ch: char)
    requires Tame(r) && (r.hstate.General? || r.hstate.ConnTokenStart? || r.hstate.ConnToken?)
    ensures Tame(ValueNext(r, ch)) && SameBut(r, ValueNext(r, ch))
    ensures r.hstate.General? ==> ValueNext(r, ch) == r
  {
    var h := ValueNext(r, ch).hstate;
    if r.hstate.ConnTokenStart? {
      assert ValueNext(r, ch) == r.(hstate := h) && (h.MatchingKeepAlive? || h.MatchingClose? || h.MatchingConnUpgrade?
             || h.ConnToken? || h.ConnTokenStart? || h.General?) by { hide Lower, IsToken; }
    } else {
      assert ValueNext(r, ch) == r || ValueNext(r, ch) == r.(hstate := ConnTokenStart, index := 0);
    }
    hide ValueNext;
  }

  /** Behind a word that counts. */
  lemma TameEnd(r: Regs, ch: char)
    requires Tame(r) && (r.hstate.ConnectionKeepAlive? || r.hstate.ConnectionClose? || r.hstate.ConnectionUpgrade?)
    ensures Tame(ValueNext(r, ch)) && SameBut(r, ValueNext(r, ch))
  {
    assert ValueNext(r, ch) == ValueItemEnd(r, ch);
    hide ValueNext, Lower, IsToken;
  }

  /** Within a word that might count. */
  lemma TameWord(r: Regs, ch: char)
    requires Tame(r) && (r.hstate.MatchingKeepAlive? || r.hstate.MatchingClose? || r.hstate.MatchingConnUpgrade?)
    ensures Tame(ValueNext(r, ch)) && SameBut(r, ValueNext(r, ch))
  {
    var r' := ValueNext(r, ch);
    assert r' == r.(hstate := r'.hstate, index := r'.index)
           && (r'.hstate == r.hstate || r'.hstate.ConnToken? || r'.hstate.ConnectionKeepAlive?
               || r'.hstate.ConnectionClose?
               || r'.hstate.ConnectionUpgrade?) by {
      hide Lower, IsToken;
    }
    hide ValueNext;
  }

  /** The name of the header at hand says nothing about the connection or the protocol. */
  predicate Indifferent(r: Regs) {
    !r.hstate.Connection? && !r.hstate.ConnTokenStart? && !r.hstate.Upgrade?
  }

  lemma TameFirst(r: Regs, ch: char)
    requires r.errno == OK && !r.hstate.ContentLength? && !r.hstate.TransferEncoding?
    ensures var a := ValueFirst(r, ch);
            && a.Go? && a == Go(a.r, Open(Value), Quiet, Advance) && Tame(a.r) && SameBut(r, a.r)
            && (Indifferent(r) ==> a.r.hstate.General? && a.r.flags == r.flags)
            && (r.hstate.Upgrade? ==> a.r.hstate.General? && a.r.flags == r.flags.(upgrade := true))
  {
    var h := ValueFirst(r, ch).r.hstate;
    assert ValueFirst(r, ch).r == r.(state := HeaderValue, index := 0, hstate := h,
                                     flags := if r.hstate.Upgrade? then r.flags.(upgrade := true) else r.flags)
           by { hide Lower; }
    assert ValueFirst(r, ch) == Go(ValueFirst(r, ch).r, Open(Value), Quiet, Advance) by { hide Lower; }
    FirstState(r, ch);
    hide ValueFirst;
  }

  /** Where the recognizer starts. */
  lemma FirstState(r: Regs, ch: char)
    requires !r.hstate.ContentLength? && !r.hstate.TransferEncoding?
    ensures var h := ValueFirst(r, ch).r.hstate;
            if Indifferent(r) || r.hstate.Upgrade? then h.General?
            else if r.hstate.ConnTokenStart? then h.ConnTokenStart?
            else h.MatchingKeepAlive? || h.MatchingClose? || h.MatchingConnUpgrade? || h.ConnToken?
  {
    hide Lower;
  }

  lemma FirstValueByte(s: Abs, ch: char)
    requires s.r.state.HeaderValueDiscardWs? && ch != ' ' && ch != HTAB && ch != CR && ch != LF
    requires ValueFirst(s.r, ch).Go? && ValueFirst(s.r, ch) == Go(ValueFirst(s.r, ch).r, Open(Value), Quiet, Advance)
    requires ValueFirst(s.r, ch).r.state.HeaderValue?
    ensures ADo(s, ch) == ANext(Abs(ValueFirst(s.r, ch).r, Put(s.log, Data(Value, [ch]))))
  {
    assert Transition(s.r, ch, false) == ValueFirst(s.r, ch) by { hide ValueFirst; }
    hide Transition, ValueFirst, Put, ADo;
    DataByte(s, ch, ValueFirst(s.r, ch).r, Open(Value), Value);
  }

  lemma NextValueByte(s: Abs, ch: char)
    requires s.r.state.HeaderValue? && IsHeaderChar(ch) && ch != CR && ch != LF
    requires ValueNext(s.r, ch).errno == OK && ValueNext(s.r, ch).state.HeaderValue?
    ensures ADo(s, ch) == ANext(Abs(ValueNext(s.r, ch), Put(s.log, Data(Value, [ch]))))
  {
    assert Transition(s.r, ch, false) == Go(ValueNext(s.r, ch), Keep, Quiet, Advance) by { hide ValueNext; }
    hide Transition, ValueNext, Put, ADo;
    DataByte(s, ch, ValueNext(s.r, ch), Keep, Value);
  }

  /** Reading a value of no interest to the body. */
  lemma {:induction false} ThroughValue(s: Abs, v: string) returns (s': Abs)
    requires s.r.state.HeaderValueDiscardWs? && s.r.errno == OK && v != "" && GoodValue(v)
    requires !s.r.hstate.ContentLength? && !s.r.hstate.TransferEncoding?
    ensures Through(s, v, s') && s'.log == Put(s.log, Data(Value, v)) && Tame(s'.r) && SameBut(s.r, s'.r)
    ensures Indifferent(s.r) ==> s'.r.hstate.General? && s'.r.flags == s.r.flags
    ensures s.r.hstate.Upgrade? ==> s'.r.hstate.General? && s'.r.flags == s.r.flags.(upgrade := true)
    ensures s.r.hstate.Connection? ==> Knows(s'.r, s.r.flags, v)
  {
    hide ADo, Through, Put, ValueFirst, ValueNext, IsHeaderChar, Knows, Items, Strip;
    var n := |v| - 1;
    var w := v[..n];
    assert v == w + [v[n]];
    if n == 0 {
      assert v == [v[0]];
      TameFirst(s.r, v[0]);
      if s.r.hstate.Connection? {
        KnowsFirst(s.r, v[0]);
      }
      FirstValueByte(s, v[0]);
      s' := Abs(ValueFirst(s.r, v[0]).r, Put(s.log, Data(Value, v)));
      ThroughByte(s, v[0], s');
    } else {
      assert GoodValue(w);
      var s1 := ThroughValue(s, w);
      TameNext(s1.r, v[n]);
      if s.r.hstate.Connection? {
        OneItem(w);
        KnowsNext(s1.r, s.r.flags, w, v[n]);
      }
      NextValueByte(s1, v[n]);
      PutTwice(s.log, Value, w, [v[n]]);
      s' := Abs(ValueNext(s1.r, v[n]), Put(s.log, Data(Value, v)));
      ThenByte(s, w, s1, v[n], s');
    }
  }

  /** Behind the name, the colon and what stands between it and the value. */
  function Introduced(s: Abs, name: string): Abs
    requires name != ""
  {
    Named(s, name).(r := Named(s, name).r.(state := HeaderValueDiscardWs))
  }

  lemma ColonByte(s: Abs)
    requires s.r.state.HeaderField?
    ensures ADo(s, ':') == ANext(s.(r := s.r.(state := HeaderValueDiscardWs)))
  {
    hide FieldNext;
  }

  lemma BlankByte(s: Abs, ch: char)
    requires s.r.state.HeaderValueDiscardWs? && (ch == ' ' || ch == HTAB)
    ensures ADo(s, ch) == ANext(s)
  {
    hide ValueFirst;
  }

  lemma {:induction false} ThroughGap(s: Abs, g: string)
    requires s.r.state.HeaderValueDiscardWs? && Blank(g)
    ensures Through(s, g, s)
  {
    hide ADo, Through;
    var n := |g| - 1;
    if g == "" {
      Nothing(s);
    } else {
      ThroughGap(s, g[..n]);
      BlankByte(s, g[n]);
      ThenByte(s, g[..n], s, g[n], s);
      assert g[..n] + [g[n]] == g;
    }
  }

  lemma ThroughIntro(s: Abs, name: string, gap: string)
    requires s.r.state.HeaderFieldStart? && name != "" && AreTokens(name) && Blank(gap)
    ensures Through(s, name + ":" + gap, Introduced(s, name))
  {
    hide ADo, Through, Recognize, Put, IsToken, Blank;
    ThroughName(s, name);
    ColonByte(Named(s, name));
    ThenByte(s, name, Named(s, name), ':', Introduced(s, name));
    assert name + [':'] == name + ":";
    ThroughGap(Introduced(s, name), gap);
    Then(s, name + ":", Introduced(s, name), gap, Introduced(s, name));
  }

  lemma ValueCr(s: Abs)
    requires s.r.state.HeaderValue? || s.r.state.HeaderValueDiscardWs?
    ensures ADo(s, CR) == ANext(Crossed(s))
  {
    assert Transition(s.r, CR, false).Go? && Transition(s.r, CR, false).r == Crossed(s).r
           by { hide ValueFirst, ValueNext; }
    hide ValueFirst, ValueNext;
  }

  lemma ValueLf(s: Abs)
    requires s.r.state.HeaderAlmostDone? || s.r.state.HeaderValueDiscardWsAlmostDone?
    ensures ADo(s, LF) ==
            ANext(s.(r := s.r.(state := if s.r.state.HeaderAlmostDone? then HeaderValueLws else HeaderValueDiscardLws)))
  {
    hide ValueFirst, ValueNext;
  }

  /** Behind the CR at the end of a value. */
  function Crossed(s: Abs): Abs {
    s.(r := s.r.(state := if s.r.state.HeaderValue? then HeaderAlmostDone else HeaderValueDiscardWsAlmostDone))
  }

  /** The line end behind a value; an empty value leaves the parser in another state. */
  function Ended(s: Abs): Abs {
    s.(r := s.r.(state := if s.r.state.HeaderValue? then HeaderValueLws else HeaderValueDiscardLws))
  }

  lemma ThroughEnd(s: Abs)
    requires s.r.state.HeaderValue? || s.r.state.HeaderValueDiscardWs?
    ensures Through(s, CRLF, Ended(s))
  {
    hide ADo, Through;
    var s1 := Crossed(s);
    ValueCr(s);
    ValueLf(s1);
    ThroughByte(s, CR, s1);
    ThenByte(s, [CR], s1, LF, Ended(s));
    assert [CR] + [LF] == CRLF;
  }

  /** The log has room for a new header field. */
  ghost predicate ReadyForField(log: seq<Event>) {
    log != [] && !(log[|log| - 1].Data? && log[|log| - 1].kind == Field)
  }

  lemma PutHeader(log: seq<Event>, h: Header)
    requires ReadyForField(log)
    ensures Put(Put(log, Data(Field, h.name)), Data(Value, h.value)) == log
            + [Data(Field, h.name), Data(Value, h.value)]
    ensures ReadyForField(log + [Data(Field, h.name), Data(Value, h.value)])
  {
    assert log + [Data(Field, h.name)] + [Data(Value, h.value)] == log + [Data(Field, h.name), Data(Value, h.value)];
  }

  /** Behind a whole header line that does not announce a body. */
  ghost predicate HeaderRead(s: Abs, hs: seq<Header>, s': Abs) {
    var t := Settled(s');
    && LineEnded(s') && t.r.state.HeaderFieldStart?
    && t.r == s.r.(state := HeaderFieldStart, hstate := t.r.hstate, index := t.r.index,
                   flags := WithHeaders(s.r.flags, hs))
    && t.log == s.log + HeaderEvents(hs) && ReadyForField(t.log)
  }

  lemma PlainName(h: Header)
    requires GoodHeader(h)
    ensures var hstate := Recognize(h.name).0;
            && !hstate.ContentLength? && !hstate.TransferEncoding? && !hstate.TransferEncodingChunked?
            && (IsConnection(h) <==> hstate.Connection?) && (NamesProtocol(h) <==> hstate.Upgrade? && h.value != "")
            && NoItem(hstate) && !hstate.ConnTokenStart?
    ensures h.name != "" && AreTokens(h.name) && Blank(h.gap) && GoodValue(h.value)
  {
    hide GoodValue, IsToken, LowerName, Recognize;
    RecognizesExactly(h.name);
    NameOnly(h.name);
  }

  lemma NameOnly(name: string)
    requires name != "" && AreTokens(name)
    ensures NoItem(Recognize(name).0) && !Recognize(name).0.ConnTokenStart?
            && !Recognize(name).0.TransferEncodingChunked?
  {
    hide LowerName, Recognize, IsToken;
    RecognizeMeans(name);
  }

  predicate NoItem(h: HState) {
    !h.ConnectionKeepAlive? && !h.ConnectionClose? && !h.ConnectionUpgrade?
  }

  lemma NothingFinished(r: Regs)
    requires NoItem(r.hstate) && !r.hstate.TransferEncodingChunked?
    ensures FinishHeader(r) == r.flags
  {
  }

  /** The flags at the end of the line. */
  lemma HeaderFlags(s: Abs, h: Header, s2: Abs, end: State)
    requires GoodHeader(h) && s.r.hstate == Recognize(h.name).0
    requires if h.value == "" then s2 == s
             else && SameBut(s.r, s2.r) && Tame(s2.r)
                  && (Indifferent(s.r) ==> s2.r.hstate.General? && s2.r.flags == s.r.flags)
                  && (s.r.hstate.Upgrade? ==> s2.r.hstate.General? && s2.r.flags == s.r.flags.(upgrade := true))
                  && (s.r.hstate.Connection? ==> Knows(s2.r, s.r.flags, h.value))
    ensures FinishHeader(s2.r.(state := end)) == WithHeader(s.r.flags, h)
  {
    hide Recognize, LowerName, FinishHeader, GoodValue, IsConnection, NamesProtocol, Knows, WithItems, SameBut, Items;
    PlainName(h);
    ConnectionOrProtocol(h);
    if IsConnection(h) {
      if h.value == "" {
        NothingFinished(s2.r.(state := end));
        NothingAsked(s.r.flags);
      } else {
        KnowsEnd(s2.r, s.r.flags, h.value, end);
      }
    } else {
      NothingFinished(s2.r.(state := end));
    }
  }

  lemma ConnectionOrProtocol(h: Header)
    ensures !(IsConnection(h) && NamesProtocol(h))
  {
  }

  lemma ThroughHeader(s: Abs, h: Header) returns (s': Abs)
    requires s.r.state.HeaderFieldStart? && s.r.errno == OK && ReadyForField(s.log) && GoodHeader(h)
    ensures Through(s, PrintHeader(h), s') && HeaderRead(s, [h], s')
  {
    hide ADo, Through, Recognize, Put, IsToken, LowerName, FinishHeader, GoodValue, Knows, WithHeader;
    PlainName(h);
    ThroughIntro(s, h.name, h.gap);
    var s1 := Introduced(s, h.name);
    var s2 := s1;
    if h.value != "" {
      s2 := ThroughValue(s1, h.value);
    } else {
      Nothing(s1);
    }
    Then(s, h.name + ":" + h.gap, s1, h.value, s2);
    ThroughEnd(s2);
    s' := Ended(s2);
    Then(s, h.name + ":" + h.gap + h.value, s2, CRLF, s');
    PutHeader(s.log, h);
    HeaderFlags(s1, h, s2, s'.r.state);
    OneHeader(s.r.flags, h);
    assert HeaderEvents([h]) == [Data(Field, h.name), Data(Value, h.value)];
  }

  lemma OneHeader(f: Flags, h: Header)
    ensures WithHeaders(f, [h]) == WithHeader(f, h)
  {
    assert [h][..0] == [] && WithHeaders(f, []) == f;
  }

  lemma HeaderText(h: Header)
    requires GoodHeader(h)
    ensures PrintHeader(h) != "" && PrintHeader(h)[0] != ' ' && PrintHeader(h)[0] != HTAB
  {
    assert PrintHeader(h)[0] == h.name[0] && IsToken(h.name[0]);
  }

  /** Reading any number of such header lines. */
  lemma {:induction false} ThroughHeaders(s: Abs, hs: seq<Header>) returns (s': Abs)
    requires s.r.state.HeaderFieldStart? && s.r.errno == OK && ReadyForField(s.log)
    requires forall h :: h in hs ==> GoodHeader(h)
    ensures Through(s, PrintHeaders(hs), s') && HeaderRead(s, hs, s')
  {
    hide ADo, Through, GoodHeader, PrintHeader, Settled, LineEnded, WithHeader;
    var n := |hs| - 1;
    if hs == [] {
      Nothing(s);
      s' := s;
      NoHeaders(s);
    } else {
      var s1 := ThroughHeaders(s, hs[..n]);
      var s2 := Settled(s1);
      assert s2.r.errno == OK by { SettledNoError(s1); }
      s' := ThroughHeader(s2, hs[n]);
      OneHeader(s2.r.flags, hs[n]);
      HeaderText(hs[n]);
      Settle(s1, PrintHeader(hs[n]), s');
      Then(s, PrintHeaders(hs[..n]), s1, PrintHeader(hs[n]), s');
      PrintLast(hs);
    }
  }

  lemma SettledNoError(s: Abs)
    requires LineEnded(s)
    ensures Settled(s).r.errno == OK
  {
  }

  lemma NoHeaders(s: Abs)
    requires s.r.state.HeaderFieldStart? && s.r.errno == OK && ReadyForField(s.log)
    ensures HeaderRead(s, [], s) && Settled(s) == s
  {
    assert s.log + [] == s.log;
  }

  lemma {:induction false} PrintLast(hs: seq<Header>)
    requires hs != []
    ensures PrintHeaders(hs) == PrintHeaders(hs[..|hs| - 1]) + PrintHeader(hs[|hs| - 1])
    ensures HeaderEvents(hs) == HeaderEvents(hs[..|hs| - 1]) + HeaderEvents([hs[|hs| - 1]])
  {
    var n := |hs| - 1;
    if n == 0 {
      assert hs[..n] == [] && hs == [hs[0]];
    } else {
      PrintLast(hs[1..]);
      assert hs[1..][..n - 1] == hs[..n][1..];
    }
  }
}
