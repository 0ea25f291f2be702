/** The first line of a message: the request line or the status line. */
module HttpStart {
  import opened Bytes
  import opened HttpTypes
  import opened HttpAutomaton
  import opened HttpInvariant
  import opened HttpStream
  import opened HttpFeed
  import opened HttpNames
  import opened HttpMethods
  import opened HttpNumbers
  import opened HttpHeaders

  /** A request asks for a target, a reply answers with a status. */
  datatype Start = Asking(meth: Method, target: string) | Answering(status: nat, reason: string)

  function Protocol(major: Digit, minor: Digit): string {
    "HTTP/" + [DigitChar(major)] + "." + [DigitChar(minor)]
  }

  function StartLine(start: Start, major: Digit, minor: Digit): string {
    match start
    case Asking(meth, target) => MethodString(meth) + " " + target + " " + Protocol(major, minor) + CRLF
    case Answering(status, reason) => Protocol(major, minor) + " " + ToDecimal(status) + " " + reason + CRLF
  }

  /** The state of the URL automaton behind a target. */
  function TargetState(connect: bool, t: string): State
    requires t != ""
  {
    var n := |t| - 1;
    ParseUrlChar(if n > 0 then TargetState(connect, t[..n]) else if connect then ReqServerStart else ReqSpacesBeforeUrl,
                 t[n])
  }

  /** A target that may be followed by a space. */
  predicate GoodTarget(connect: bool, t: string) {
    && t != ""
    && var s := TargetState(connect, t);
       !s.Dead? && !s.ReqSchema? && !s.ReqSchemaSlash? && !s.ReqSchemaSlashSlash? && !s.ReqServerStart?
  }

  predicate OnOneLine(text: string) {
    forall k :: 0 <= k < |text| ==> text[k] != CR && text[k] != LF
  }

  predicate GoodStart(start: Start) {
    match start
    case Asking(meth, target) => GoodTarget(meth == CONNECT, target)
    case Answering(status, reason) => status <= 999 && OnOneLine(reason)
  }

  function StartEvents(start: Start): seq<Event> {
    match start
    case Asking(_, target) => [MessageBegin, Data(Url, target)]
    case Answering(_, reason) => [MessageBegin, Data(DataKind.Status, reason)]
  }

  /** The parser waits for a request or a reply. */
  ghost predicate Waits(r: Regs, asking: bool) {
    && r.errno == OK
    && if asking then r.ptype.Request? && r.state.StartReq?
       else r.ptype.Response? && r.state.StartRes? && r.meth != CONNECT
  }

  /** The parser behind the first line, ready for the headers. */
  function Started(s: Abs, start: Start, major: Digit, minor: Digit): Abs {
    var r := s.r.(flags := NO_FLAGS, clen := NO_LENGTH, state := HeaderFieldStart, major := major, minor := minor);
    Abs(match start
        case Asking(meth, _) => r.(meth := meth, index := |MethodString(meth)| + 1)
        case Answering(status, _) => r.(status := status, index := 0),
        s.log + StartEvents(start))
  }

  // ----- the version -----

  lemma VersionByte(s: Abs, ch: char, r: Regs)
    requires PartOf(s.r.state).InVersion? && Version(s.r, ch) == Go(r, Keep, Quiet, Advance)
    ensures ADo(s, ch) == ANext(Abs(r, s.log))
  {
    VersionShape(s.r, ch);
    assert Transition(s.r, ch, false) == Version(s.r, ch);
    hide Transition, Version, ADo;
    ByAct(s, ch, Version(s.r, ch));
  }

  lemma Further(s: Abs, w: string, r: Regs, ch: char, w': string, r': Regs)
    requires Through(s, w, Abs(r, s.log)) && w' == w + [ch]
    requires PartOf(r.state).InVersion? && Version(r, ch) == Go(r', Keep, Quiet, Advance)
    ensures Through(s, w', Abs(r', s.log))
  {
    hide ADo, Through, Version;
    VersionByte(Abs(r, s.log), ch, r');
    ThenByte(s, w, Abs(r, s.log), ch, Abs(r', s.log));
  }

  lemma DigitIs(n: Digit)
    ensures IsNum(DigitChar(n)) && DigitValue(DigitChar(n)) == n && DigitChar(n) != ' '
  {
  }

  lemma ThroughHt(s: Abs)
    requires s.r.state.ReqHttpStart?
    ensures Through(s, "HT", Abs(s.r.(state := ReqHttpHT), s.log))
  {
    hide ADo, Through;
    Nothing(s);
    Further(s, "", s.r, 'H', "H", s.r.(state := ReqHttpH));
    Further(s, "H", s.r.(state := ReqHttpH), 'T', "HT", s.r.(state := ReqHttpHT));
  }

  lemma ThroughHttp(s: Abs)
    requires s.r.state.ReqHttpStart?
    ensures Through(s, "HTTP", Abs(s.r.(state := ReqHttpHTTP), s.log))
  {
    hide ADo, Through;
    ThroughHt(s);
    Further(s, "HT", s.r.(state := ReqHttpHT), 'T', "HTT", s.r.(state := ReqHttpHTT));
    Further(s, "HTT", s.r.(state := ReqHttpHTT), 'P', "HTTP", s.r.(state := ReqHttpHTTP));
  }

  /** "/1.0" and the like, in a request or a reply. */
  function Numbers(major: Digit, minor: Digit): string {
    "/" + [DigitChar(major)] + "." + [DigitChar(minor)]
  }

  lemma ThroughMajor(s: Abs, major: Digit)
    requires (s.r.state.ReqHttpHTTP? || s.r.state.ResHTTP?)
    ensures Through(s, "/" + [DigitChar(major)] + ".",
                    Abs(s.r.(state := if s.r.state.ReqHttpHTTP? then ReqHttpMinor else ResHttpMinor, major := major),
                        s.log))
  {
    hide ADo, Through, DigitChar, DigitValue;
    if s.r.state.ReqHttpHTTP? {
      ThroughAskedMajor(s, major);
    } else {
      ThroughAnsweredMajor(s, major);
    }
  }

  lemma ThroughAskedMajor(s: Abs, major: Digit)
    requires s.r.state.ReqHttpHTTP?
    ensures Through(s, "/" + [DigitChar(major)] + ".", Abs(s.r.(state := ReqHttpMinor, major := major), s.log))
  {
    hide ADo, Through, DigitChar, DigitValue;
    var c, r := DigitChar(major), s.r;
    DigitIs(major);
    Nothing(s);
    Further(s, "", r, '/', "/", r.(state := ReqHttpMajor));
    Further(s, "/", r.(state := ReqHttpMajor), c, "/" + [c], r.(state := ReqHttpDot, major := major));
    Further(s, "/" + [c], r.(state := ReqHttpDot, major := major), '.', "/" + [c] + ".",
            r.(state := ReqHttpMinor, major := major));
  }

  lemma ThroughAnsweredMajor(s: Abs, major: Digit)
    requires s.r.state.ResHTTP?
    ensures Through(s, "/" + [DigitChar(major)] + ".", Abs(s.r.(state := ResHttpMinor, major := major), s.log))
  {
    hide ADo, Through, DigitChar, DigitValue;
    var c, r := DigitChar(major), s.r;
    DigitIs(major);
    Nothing(s);
    Further(s, "", r, '/', "/", r.(state := ResHttpMajor));
    Further(s, "/", r.(state := ResHttpMajor), c, "/" + [c], r.(state := ResHttpDot, major := major));
    Further(s, "/" + [c], r.(state := ResHttpDot, major := major), '.', "/" + [c] + ".",
            r.(state := ResHttpMinor, major := major));
  }

  lemma ThroughNumbers(s: Abs, major: Digit, minor: Digit)
    requires (s.r.state.ReqHttpHTTP? || s.r.state.ResHTTP?)
    ensures Through(s, Numbers(major, minor),
                    Abs(s.r.(state := if s.r.state.ReqHttpHTTP? then ReqHttpEnd else ResHttpEnd, major := major,
                             minor := minor), s.log))
  {
    hide ADo, Through, DigitChar, DigitValue;
    var request := s.r.state.ReqHttpHTTP?;
    ThroughMajor(s, major);
    DigitIs(minor);
    var r := s.r.(state := if request then ReqHttpMinor else ResHttpMinor, major := major);
    Further(s, "/" + [DigitChar(major)] + ".", r, DigitChar(minor), Numbers(major, minor),
            r.(state := if request then ReqHttpEnd else ResHttpEnd, minor := minor));
  }

  // ----- the request line -----

  lemma FirstTargetByte(s: Abs, ch: char)
    requires s.r.state.ReqSpacesBeforeUrl? && !TargetState(s.r.meth == CONNECT, [ch]).Dead?
    ensures ADo(s, ch) ==
            ANext(Abs(s.r.(state := TargetState(s.r.meth == CONNECT, [ch])), Put(s.log, Data(Url, [ch]))))
  {
    var st := TargetState(s.r.meth == CONNECT, [ch]);
    UrlBegins(s.r.meth == CONNECT, ch);
    assert Transition(s.r, ch, false) == Go(s.r.(state := st), Open(Url), Quiet, Advance) by { hide ParseUrlChar; }
    hide Transition, ADo, Put, TargetState;
    DataByte(s, ch, s.r.(state := st), Open(Url), Url);
  }

  lemma UrlBegins(connect: bool, ch: char)
    requires !TargetState(connect, [ch]).Dead?
    ensures ch != ' ' && PartOf(TargetState(connect, [ch])).WithinUrl?
    ensures RuleOf(TargetState(connect, [ch])) == Always(Url)
  {
  }

  lemma UrlStays(s: State, ch: char)
    ensures PartOf(s).WithinUrl? || s.ReqSpacesBeforeUrl? ==>
              ParseUrlChar(s, ch).Dead? || (PartOf(ParseUrlChar(s, ch)).WithinUrl? && ch != ' ' && ch != CR && ch != LF)
    ensures s.Dead? ==> ParseUrlChar(s, ch).Dead?
  {
  }

  lemma NextTargetByte(s: Abs, ch: char)
    requires PartOf(s.r.state).WithinUrl? && !ParseUrlChar(s.r.state, ch).Dead?
    ensures ADo(s, ch) == ANext(Abs(s.r.(state := ParseUrlChar(s.r.state, ch)), Put(s.log, Data(Url, [ch]))))
  {
    UrlStays(s.r.state, ch);
    var r := s.r.(state := ParseUrlChar(s.r.state, ch));
    assert Transition(s.r, ch, false) == Go(r, Keep, Quiet, Advance);
    assert RuleOf(r.state) == Always(Url);
    hide Transition, ADo, Put, ParseUrlChar;
    DataByte(s, ch, r, Keep, Url);
  }

  lemma {:induction false} TargetWithin(connect: bool, t: string)
    requires t != ""
    ensures !TargetState(connect, t).Dead? ==> PartOf(TargetState(connect, t)).WithinUrl?
  {
    var n := |t| - 1;
    if n > 0 {
      TargetWithin(connect, t[..n]);
      UrlStays(TargetState(connect, t[..n]), t[n]);
    } else {
      UrlStays(if connect then ReqServerStart else ReqSpacesBeforeUrl, t[n]);
    }
  }

  function Targeted(s: Abs, t: string): Abs
    requires t != ""
  {
    Abs(s.r.(state := TargetState(s.r.meth == CONNECT, t)), Put(s.log, Data(Url, t)))
  }

  lemma {:induction false} ThroughTarget(s: Abs, t: string)
    requires s.r.state.ReqSpacesBeforeUrl? && t != "" && !TargetState(s.r.meth == CONNECT, t).Dead?
    ensures Through(s, t, Targeted(s, t))
  {
    hide ADo, Through, Put, ParseUrlChar, PartOf;
    var n, connect := |t| - 1, s.r.meth == CONNECT;
    var w := t[..n];
    assert t == w + [t[n]];
    if n == 0 {
      assert t == [t[0]];
      FirstTargetByte(s, t[0]);
      ThroughByte(s, t[0], Targeted(s, t));
    } else {
      UrlStays(TargetState(connect, w), t[n]);
      TargetWithin(connect, w);
      ThroughTarget(s, w);
      NextTargetByte(Targeted(s, w), t[n]);
      PutTwice(s.log, Url, w, [t[n]]);
      ThenByte(s, w, Targeted(s, w), t[n], Targeted(s, t));
    }
  }

  lemma TargetEnd(s: Abs)
    requires PartOf(s.r.state).WithinUrl?
    requires !s.r.state.ReqSchema? && !s.r.state.ReqSchemaSlash? && !s.r.state.ReqSchemaSlashSlash?
             && !s.r.state.ReqServerStart?
    ensures ADo(s, ' ') == ANext(Abs(s.r.(state := ReqHttpStart), s.log))
  {
  }

  lemma ThroughLineEnd(s: Abs)
    requires s.r.state.ReqHttpEnd?
    ensures Through(s, CRLF, Abs(s.r.(state := HeaderFieldStart), s.log))
  {
    hide ADo, Through;
    Nothing(s);
    Further(s, "", s.r, CR, [CR], s.r.(state := ReqLineAlmostDone));
    Further(s, [CR], s.r.(state := ReqLineAlmostDone), LF, CRLF, s.r.(state := HeaderFieldStart));
  }

  lemma ThroughVersion(s: Abs, major: Digit, minor: Digit)
    requires s.r.state.ReqHttpStart?
    ensures Through(s, Protocol(major, minor) + CRLF,
                    Abs(s.r.(state := HeaderFieldStart, major := major, minor := minor), s.log))
  {
    hide ADo, Through, DigitChar;
    var s1 := Abs(s.r.(state := ReqHttpHTTP), s.log);
    var s2 := Abs(s.r.(state := ReqHttpEnd, major := major, minor := minor), s.log);
    var s3 := Abs(s.r.(state := HeaderFieldStart, major := major, minor := minor), s.log);
    ThroughHttp(s);
    ThroughNumbers(s1, major, minor);
    Then(s, "HTTP", s1, Numbers(major, minor), s2);
    ThroughLineEnd(s2);
    assert "HTTP" + Numbers(major, minor) == Protocol(major, minor);
    Then(s, Protocol(major, minor), s2, CRLF, s3);
  }

  lemma MethodText(m: Method)
    ensures MethodString(m) != "" && NoSpace(MethodString(m)) && MethodString(m)[0] != CR && MethodString(m)[0] != LF
  {
    LettersOnly(m);
  }

  /** Reading the method. */
  lemma ThroughMethod(s: Abs, meth: Method) returns (s': Abs)
    requires s.r.state.StartReq?
    ensures Through(s, MethodString(meth) + " ", s')
    ensures s' == Abs(s.r.(flags := NO_FLAGS, clen := NO_LENGTH, meth := meth, index := |MethodString(meth)| + 1,
                           state := ReqSpacesBeforeUrl), Put(s.log, MessageBegin))
  {
    hide ADo, ARun, MethodString, Put, NoSpace;
    var w := MethodString(meth);
    MethodText(meth);
    MethodAcceptedExactly(s, w);
    s' := Typed(s, w, meth).(r := Typed(s, w, meth).r.(index := |w| + 1, state := ReqSpacesBeforeUrl));
  }

  /** Reading the method and the target. */
  lemma ThroughMethodAndTarget(s: Abs, meth: Method, t: string) returns (s': Abs)
    requires s.r.state.StartReq? && GoodTarget(meth == CONNECT, t)
    ensures Through(s, MethodString(meth) + " " + t + " ", s')
    ensures s' == Abs(s.r.(flags := NO_FLAGS, clen := NO_LENGTH, meth := meth, index := |MethodString(meth)| + 1,
                           state := ReqHttpStart),
                      Put(Put(s.log, MessageBegin), Data(Url, t)))
  {
    hide ADo, Through, MethodString, PartOf, TargetState, Put;
    var w := MethodString(meth);
    var s1 := ThroughMethod(s, meth);
    TargetWithin(meth == CONNECT, t);
    ThroughTarget(s1, t);
    var s2 := Targeted(s1, t);
    Then(s, w + " ", s1, t, s2);
    TargetEnd(s2);
    s' := Abs(s2.r.(state := ReqHttpStart), s2.log);
    ThenByte(s, w + " " + t, s2, ' ', s');
    assert w + " " + t + [' '] == w + " " + t + " ";
  }

  lemma StartLog(log: seq<Event>, k: DataKind, t: string)
    ensures Put(Put(log, MessageBegin), Data(k, t)) == log + [MessageBegin, Data(k, t)]
    ensures ReadyForField(log + [MessageBegin, Data(k, t)]) <== k != Field
  {
    assert log + [MessageBegin] + [Data(k, t)] == log + [MessageBegin, Data(k, t)];
  }

  lemma ThroughRequestLine(s: Abs, start: Start, major: Digit, minor: Digit)
    requires s.r.state.StartReq? && start.Asking? && GoodStart(start)
    ensures Through(s, StartLine(start, major, minor), Started(s, start, major, minor))
  {
    hide ADo, Through, MethodString, Put, Protocol, GoodTarget;
    var s1 := ThroughMethodAndTarget(s, start.meth, start.target);
    var text := MethodString(start.meth) + " " + start.target + " ";
    ThroughVersion(s1, major, minor);
    StartLog(s.log, Url, start.target);
    Then(s, text, s1, Protocol(major, minor) + CRLF, Started(s, start, major, minor));
    assert text + (Protocol(major, minor) + CRLF) == StartLine(start, major, minor);
  }

  // ----- the status line -----

  lemma StartByte(s: Abs)
    requires s.r.state.StartRes?
    ensures ADo(s, 'H') ==
            ANext(Abs(s.r.(flags := NO_FLAGS, clen := NO_LENGTH, state := ResH), Put(s.log, MessageBegin)))
  {
    hide Put;
  }

  lemma ThroughTtp(s: Abs)
    requires s.r.state.ResH?
    ensures Through(s, "TTP", s.(r := s.r.(state := ResHTTP)))
  {
    hide ADo, Through;
    var r := s.r;
    Nothing(s);
    Further(s, "", r, 'T', "T", r.(state := ResHT));
    Further(s, "T", r.(state := ResHT), 'T', "TT", r.(state := ResHTT));
    Further(s, "TT", r.(state := ResHTT), 'P', "TTP", r.(state := ResHTTP));
  }

  lemma ThroughReplyVersion(s: Abs, major: Digit, minor: Digit)
    requires s.r.state.ResH?
    ensures Through(s, "TTP" + Numbers(major, minor) + " ",
                    s.(r := s.r.(state := ResFirstStatusCode, major := major, minor := minor)))
  {
    hide ADo, Through, Numbers;
    ThroughTtp(s);
    var s1 := s.(r := s.r.(state := ResHTTP));
    ThroughNumbers(s1, major, minor);
    var r := s.r.(state := ResHttpEnd, major := major, minor := minor);
    Then(s, "TTP", s1, Numbers(major, minor), s.(r := r));
    Further(s, "TTP" + Numbers(major, minor), r, ' ', "TTP" + Numbers(major, minor) + " ",
            r.(state := ResFirstStatusCode));
  }

  lemma FirstCodeByte(s: Abs, n: Digit)
    requires s.r.state.ResFirstStatusCode?
    ensures ADo(s, DigitChar(n)) == ANext(s.(r := s.r.(state := ResStatusCode, status := n)))
  {
    DigitIs(n);
    hide DigitChar, DigitValue;
  }

  lemma NextCodeByte(s: Abs, n: Digit)
    requires s.r.state.ResStatusCode? && s.r.status * 10 + n <= 999
    ensures ADo(s, DigitChar(n)) == ANext(s.(r := s.r.(status := s.r.status * 10 + n)))
  {
    DigitIs(n);
    hide DigitChar, DigitValue;
  }

  lemma CodeEnd(s: Abs)
    requires s.r.state.ResStatusCode?
    ensures ADo(s, ' ') == ANext(s.(r := s.r.(state := ResStatusStart)))
  {
  }

  lemma {:induction false} ThroughCode(s: Abs, n: nat)
    requires s.r.state.ResFirstStatusCode? && n <= 999
    ensures Through(s, ToDecimal(n), s.(r := s.r.(state := ResStatusCode, status := n)))
  {
    hide ADo, Through, DigitChar;
    var s' := s.(r := s.r.(state := ResStatusCode, status := n));
    if n < 10 {
      FirstCodeByte(s, n);
      ThroughByte(s, DigitChar(n), s');
    } else {
      ThroughCode(s, n / 10);
      var s1 := s.(r := s.r.(state := ResStatusCode, status := n / 10));
      NextCodeByte(s1, n % 10);
      ThenByte(s, ToDecimal(n / 10), s1, DigitChar(n % 10), s');
    }
  }

  lemma FirstReasonByte(s: Abs, ch: char)
    requires s.r.state.ResStatusStart? && ch != CR && ch != LF
    ensures ADo(s, ch) ==
            ANext(Abs(s.r.(state := ResStatus, index := 0), Put(s.log, Data(DataKind.Status, [ch]))))
  {
    var r := s.r.(state := ResStatus, index := 0);
    assert Transition(s.r, ch, false) == Go(r, Open(DataKind.Status), Quiet, Advance);
    hide ADo, Put, Transition;
    DataByte(s, ch, r, Open(DataKind.Status), DataKind.Status);
  }

  lemma NextReasonByte(s: Abs, ch: char)
    requires s.r.state.ResStatus? && ch != CR && ch != LF
    ensures ADo(s, ch) == ANext(Abs(s.r, Put(s.log, Data(DataKind.Status, [ch]))))
  {
    assert Transition(s.r, ch, false) == Go(s.r, Keep, Quiet, Advance);
    hide ADo, Put, Transition;
    DataByte(s, ch, s.r, Keep, DataKind.Status);
  }

  lemma {:induction false} ThroughReason(s: Abs, t: string)
    requires s.r.state.ResStatusStart? && t != "" && OnOneLine(t)
    ensures Through(s, t, Abs(s.r.(state := ResStatus, index := 0), Put(s.log, Data(DataKind.Status, t))))
  {
    hide ADo, Through, Put;
    var n := |t| - 1;
    var w := t[..n];
    assert t == w + [t[n]];
    var s' := Abs(s.r.(state := ResStatus, index := 0), Put(s.log, Data(DataKind.Status, t)));
    if n == 0 {
      assert t == [t[0]];
      FirstReasonByte(s, t[0]);
      ThroughByte(s, t[0], s');
    } else {
      ThroughReason(s, w);
      var s1 := Abs(s.r.(state := ResStatus, index := 0), Put(s.log, Data(DataKind.Status, w)));
      NextReasonByte(s1, t[n]);
      PutTwice(s.log, DataKind.Status, w, [t[n]]);
      ThenByte(s, w, s1, t[n], s');
    }
  }

  lemma NoReason(s: Abs)
    requires s.r.state.ResStatusStart?
    ensures ADo(s, CR) ==
            AAgain(Abs(s.r.(state := ResStatus, index := 0), Put(s.log, Data(DataKind.Status, ""))))
  {
    hide Put;
  }

  lemma ReasonCr(s: Abs)
    requires s.r.state.ResStatus?
    ensures ADo(s, CR) == ANext(s.(r := s.r.(state := ResLineAlmostDone)))
  {
  }

  lemma ReasonLf(s: Abs)
    requires s.r.state.ResLineAlmostDone?
    ensures ADo(s, LF) == ANext(s.(r := s.r.(state := HeaderFieldStart)))
  {
  }

  lemma ReasonEnd(s: Abs)
    requires s.r.state.ResStatus?
    ensures Through(s, CRLF, s.(r := s.r.(state := HeaderFieldStart)))
  {
    hide ADo, Through;
    var s1 := s.(r := s.r.(state := ResLineAlmostDone));
    ReasonCr(s);
    ReasonLf(s1);
    ThroughByte(s, CR, s1);
    ThenByte(s, [CR], s1, LF, s.(r := s.r.(state := HeaderFieldStart)));
    assert [CR] + [LF] == CRLF;
  }

  /** The reason phrase, which may be empty, and the end of the line. */
  lemma ThroughReasonLine(s: Abs, t: string)
    requires s.r.state.ResStatusStart? && OnOneLine(t)
    ensures Through(s, t + CRLF,
                    Abs(s.r.(state := HeaderFieldStart, index := 0), Put(s.log, Data(DataKind.Status, t))))
  {
    hide ADo, ARun, Put;
    var s1 := Abs(s.r.(state := ResStatus, index := 0), Put(s.log, Data(DataKind.Status, t)));
    ReasonEnd(s1);
    if t == "" {
      NoReason(s);
      AStepRun(s, CRLF, 0);
      assert t + CRLF == CRLF;
    } else {
      ThroughReason(s, t);
      Then(s, t, s1, CRLF, s1.(r := s1.r.(state := HeaderFieldStart)));
    }
  }

  lemma ThroughStatusCode(s: Abs, status: nat)
    requires s.r.state.ResFirstStatusCode? && status <= 999
    ensures Through(s, ToDecimal(status) + " ", s.(r := s.r.(state := ResStatusStart, status := status)))
  {
    hide ADo, Through, ToDecimal;
    ThroughCode(s, status);
    var s1 := s.(r := s.r.(state := ResStatusCode, status := status));
    CodeEnd(s1);
    ThenByte(s, ToDecimal(status), s1, ' ', s1.(r := s1.r.(state := ResStatusStart)));
    assert ToDecimal(status) + [' '] == ToDecimal(status) + " ";
  }

  lemma ThroughStatusLine(s: Abs, start: Start, major: Digit, minor: Digit)
    requires s.r.state.StartRes? && start.Answering? && GoodStart(start)
    ensures Through(s, StartLine(start, major, minor), Started(s, start, major, minor))
  {
    hide ADo, Through, ToDecimal, Numbers, Put, OnOneLine;
    StartByte(s);
    var s1 := ADo(s, 'H').s;
    ThroughByte(s, 'H', s1);
    ThroughReplyVersion(s1, major, minor);
    var a := "TTP" + Numbers(major, minor) + " ";
    var s2 := s1.(r := s1.r.(state := ResFirstStatusCode, major := major, minor := minor));
    Then(s, ['H'], s1, a, s2);
    ThroughStatusCode(s2, start.status);
    var b := ToDecimal(start.status) + " ";
    var s3 := s2.(r := s2.r.(state := ResStatusStart, status := start.status));
    Then(s, ['H'] + a, s2, b, s3);
    ThroughReasonLine(s3, start.reason);
    StartLog(s.log, DataKind.Status, start.reason);
    Then(s, ['H'] + a + b, s3, start.reason + CRLF, Started(s, start, major, minor));
    StatusLineText(start, major, minor);
  }

  lemma StatusLineText(start: Start, major: Digit, minor: Digit)
    requires start.Answering?
    ensures ['H'] + ("TTP" + Numbers(major, minor) + " ") + (ToDecimal(start.status) + " ") + (start.reason + CRLF)
            == StartLine(start, major, minor)
  {
    hide ToDecimal, DigitChar;
    assert ['H'] + "TTP" + Numbers(major, minor) == Protocol(major, minor);
    assert ['H'] + ("TTP" + Numbers(major, minor) + " ") == Protocol(major, minor) + " ";
  }

  /** Reading the first line of a message. */
  lemma ThroughStartLine(s: Abs, start: Start, major: Digit, minor: Digit)
    requires Waits(s.r, start.Asking?) && GoodStart(start)
    ensures var s' := Started(s, start, major, minor);
            Through(s, StartLine(start, major, minor), s') && ReadyForField(s'.log) && s'.r.errno == OK
  {
    hide Through, StartLine, MethodString, GoodStart;
    if start.Asking? {
      ThroughRequestLine(s, start, major, minor);
      StartLog(s.log, Url, start.target);
    } else {
      ThroughStatusLine(s, start, major, minor);
      StartLog(s.log, DataKind.Status, start.reason);
    }
  }
}
