/** Where the parser hands the connection over: to another protocol, to the end of the stream, or, if it may read
    either, to requests or replies. */
module HttpHandover {
  import opened Bytes
  import opened HttpTypes
  import opened HttpAutomaton
  import opened HttpInvariant
  import opened HttpRun
  import opened HttpSkips
  import opened HttpStream
  import opened HttpSegments
  import opened HttpFeed
  import opened HttpHeaders
  import opened HttpFraming
  import opened HttpNumbers
  import opened HttpStart
  import opened HttpPrinter

  // ----- another protocol -----

  /** Behind a message after which another protocol follows the parser stops, whatever comes next. */
  lemma StopsBehind(s: Abs, ms: seq<Message>, asking: bool, m: Message, rest: string) returns (s': Abs)
    requires Waits(s.r, asking) && Pipeline(ms, asking) && (forall k :: k in ms ==> LeavesOpen(k))
    requires Good(m) && m.start.Asking? == asking && Upgrading(m)
    ensures ARun(s, PrintAll(ms + [m]) + rest, 0) == AOutcome(s', |PrintAll(ms + [m])|, true)
    ensures s'.r.errno == OK && s'.r.upgrade && s'.log == s.log + AllEvents(ms + [m], s.r.meth, s.r.status)
    ensures Ends(s, PrintAll(ms + [m]), s', true)
  {
    hide ARun, PrintAll, AllEvents, Good, Print, LeavesOpen, Upgrading, Waits, Events, KnowsHead, Pipeline;
    var s1 := ThroughMessages(s, ms, asking);
    s' := ThroughMessage(s1, m);
    MessageKnown(s1, m, s');
    PrintedInTurn(ms, [m], s.r.meth, s.r.status);
    LastMessage([m], s.r.meth, s.r.status);
    SameHistory([m], asking, s.r.meth, s.r.status, s1.r.meth, s1.r.status);
    LastMessage([m], s1.r.meth, s1.r.status);
    ThenEnds(s, PrintAll(ms), s1, Print(m), s', true);
    StopsThere(s, PrintAll(ms + [m]), s', rest);
  }

  lemma MessageKnown(s: Abs, m: Message, s': Abs)
    requires MessageRead(s, m, s')
    ensures s'.r.errno == OK && s'.r.upgrade == Upgrading(m) && s'.log == s.log + Events(m, s.r.meth, s.r.status)
  {
    hide Events, Upgrading;
  }

  /** A call that meets the end of HTTP in the stream returns there. */
  lemma CallLeaves(h: Handler, p: Snapshot, slice: string, s': Abs, k: nat)
    requires Resumable(p) && Ordinary(h) && slice != ""
    requires ARun(AbsOfSnapshot(p), slice, 0) == AOutcome(s', k, true) && s'.r.errno == OK
    ensures var c := Call(h, p, slice); c.used == k && c.p.r == s'.r && Merge(c.p.trace) == s'.log
  {
    hide Run, ARun, MOk, RegsOk, SpanOk, Transparent, Ordinary, NeverPauses, Resumable, Begin, Concealed, Merge;
    var m, n := Begin(p.r, p.trace), |slice|;
    assert slice[0..n] == slice;
    BeginNorm(p);
    NoErrorYet(p);
    OrdinaryIsTransparent(h);
    OrdinaryNeverPauses(h);
    ConcealedStops(AbsOfSnapshot(p), slice, 0, false);
    RunSim(h, m, slice, 0, n, 0);
    RunKeepsGoing(h, m, slice, 0);
    RunOk(h, m, slice, 0);
    CallIsRun(h, p, slice);
    AtEnd(AbsOf(Run(h, m, slice, 0).m), slice);
  }

  /** The handover: the bytes before the last of the message may come in any pieces; the call that is given the last
      byte, and perhaps bytes of the other protocol with it, returns the position behind the message, says that another
      protocol follows, and has made all callbacks of the messages and no others. */
  lemma HandsOver(p: Snapshot, ms: seq<Message>, asking: bool, m: Message, rest: string, k: nat, feeds: seq<Feed>,
                  h: Handler)
    requires Awaits(p, asking) && Pipeline(ms, asking) && (forall k :: k in ms ==> LeavesOpen(k))
    requires Good(m) && m.start.Asking? == asking && Upgrading(m)
    requires k < |PrintAll(ms + [m])| && (forall f | f in feeds :: Transparent(f.h)) && Ordinary(h)
    ensures var text := PrintAll(ms + [m]);
            var (p', pos) := Drive(p, text[..k], 0, feeds);
            && p'.r.errno == OK && pos <= k
            && (pos == k ==>
                  var c := Call(h, p', text[k..] + rest);
                  && c.used == |text| - k && c.p.r.errno == OK && c.p.r.upgrade
                  && Merge(c.p.trace) == Merge(p.trace) + AllEvents(ms + [m], p.r.meth, p.r.status))
  {
    hide Drive, Call, ARun, Merge, PrintAll, AllEvents, RegsOk, Pipeline, Transparent, Ordinary, Resumable, Good,
         LeavesOpen,
      Upgrading, AbsOfSnapshot, Waits;
    var text := PrintAll(ms + [m]);
    AwaitsMeans(p, asking);
    var s := AbsOfSnapshot(p);
    var s' := StopsBehind(s, ms, asking, m, rest);
    var s1 := Prefix(s, text, s', k);
    ReadToTheEnd(p, text[..k], s1, feeds);
    var (p', pos) := Drive(p, text[..k], 0, feeds);
    if pos == k {
      SameAbs(p', s1);
      SuffixLeaves(s, text, s', k, s1, rest);
      CallLeaves(h, p', text[k..] + rest, s', |text| - k);
    }
  }

  lemma AwaitsMeans(p: Snapshot, asking: bool)
    requires Awaits(p, asking)
    ensures Resumable(p) && Waits(p.r, asking) && AbsOfSnapshot(p) == Abs(p.r, Merge(p.trace))
  {
    hide RegsOk, Merge;
  }

  lemma SameAbs(p: Snapshot, s: Abs)
    requires p.r == s.r && Merge(p.trace) == s.log
    ensures AbsOfSnapshot(p) == s
  {
    hide Merge;
  }

  /** A run that stops at the end of a text has not stopped before. */
  lemma Prefix(s: Abs, text: string, s': Abs, k: nat) returns (s1: Abs)
    requires Ends(s, text, s', true) && k < |text|
    ensures Through(s, text[..k], s1)
  {
    hide ARun;
    assert text[..k] + text[k..] == text;
    RunSplit(s, text[..k], text[k..], 0);
    s1 := ARun(s, text[..k], 0).s;
  }

  lemma SuffixLeaves(s: Abs, text: string, s': Abs, k: nat, s1: Abs, rest: string)
    requires Ends(s, text, s', true) && k < |text| && Through(s, text[..k], s1)
    ensures ARun(s1, text[k..] + rest, 0) == AOutcome(s', |text| - k, true)
  {
    hide ARun;
    assert text[..k] + text[k..] == text;
    RunSplit(s, text[..k], text[k..], 0);
    RunShift(s1, text[..k], text[k..], 0);
    StopsThere(s1, text[k..], s', rest);
  }

  // ----- the end of the stream -----

  /** What the end of the stream means behind whole messages: it completes a body that lasts so long, and otherwise is
      no news. */
  lemma EndOfStream(p: Snapshot, ms: seq<Message>, asking: bool, feeds: seq<Feed>, h: Handler)
    requires Awaits(p, asking) && Pipeline(ms, asking)
    requires (forall f | f in feeds :: Transparent(f.h)) && Transparent(h)
    ensures var text := PrintAll(ms);
            var (p', pos) := Drive(p, text, 0, feeds);
            pos == |text| ==>
              var c := Call(h, p', "");
              && c.used == 0 && c.p.r.errno in {OK, Paused}
              && Merge(c.p.trace) == Merge(p.trace) + AllEvents(ms, p.r.meth, p.r.status)
                                     + (if ms != [] && ms[|ms| - 1].payload.UntilEnd? then [MessageComplete] else [])
  {
    hide Drive, Call, ARun, Merge, PrintAll, AllEvents, RegsOk, Pipeline, Transparent, Resumable, Waits;
    AwaitsMeans(p, asking);
    var s' := ThroughMessages(AbsOfSnapshot(p), ms, asking);
    StateAtTheEnd(AbsOfSnapshot(p), ms, asking, s');
    ReadToTheEnd(p, PrintAll(ms), s', feeds);
    var (p', pos) := Drive(p, PrintAll(ms), 0, feeds);
    if pos == |PrintAll(ms)| {
      EofCall(h, p');
    }
  }

  /** What the end of the stream means: a body that lasts so long is complete; between messages it is no news; and
      anywhere else it is an error, for which the call returns 1. A paused parser and one that has failed ignore it. */
  lemma EofExactly(h: Handler, p: Snapshot)
    ensures var c, a := Call(h, p, ""), h(p.trace + [MessageComplete]);
            if p.r.errno != OK then c == Result(p, 0)
            else if p.r.state.BodyIdentityEof? then
              c == Result(Snapshot(p.r.(errno := if a.code != 0 then CbMessageComplete
                                                 else if a.pause then Paused else OK),
                                   p.trace + [MessageComplete]), 0)
            else if p.r.state in {StartReq, StartRes, StartReqOrRes, Dead} then c == Result(p, 0)
            else c == Result(Snapshot(p.r.(errno := InvalidEofState), p.trace), 1)
  {
  }

  lemma EofCall(h: Handler, p: Snapshot)
    requires p.r.errno == OK && Transparent(h)
    requires p.r.state.BodyIdentityEof? || p.r.state.StartReq? || p.r.state.StartRes? || p.r.state.Dead?
    ensures var c := Call(h, p, "");
            && c.used == 0 && c.p.r.errno in {OK, Paused}
            && Merge(c.p.trace) == Merge(p.trace) + if p.r.state.BodyIdentityEof? then [MessageComplete] else []
  {
    MergeOne(p.trace, MessageComplete);
    assert Merge(p.trace) + [] == Merge(p.trace);
    hide Merge;
  }

  lemma {:induction false} StateAtTheEnd(s: Abs, ms: seq<Message>, asking: bool, s': Abs)
    requires Waits(s.r, asking) && Pipeline(ms, asking) && Through(s, PrintAll(ms), s')
    ensures if ms != [] && ms[|ms| - 1].payload.UntilEnd? then s'.r.state.BodyIdentityEof?
            else s'.r.state.StartReq? || s'.r.state.StartRes? || s'.r.state.Dead?
  {
    hide ARun, PrintAll, AllEvents, Print, StaysOpen, Upgrading, Good, Events, KnowsHead, Waits;
    if ms == [] {
      Nothing(s);
      WaitsMeans(s.r, asking);
      assert PrintAll(ms) == "" by { NothingPrinted(); }
    } else {
      var n := |ms| - 1;
      var before, last := ms[..n], ms[n];
      assert ms == before + [last] && last in ms && forall m :: m in before ==> m in ms;
      assert forall m :: m in before ==> LeavesOpen(m);
      var s2 := ThroughMessages(s, before, asking);
      var s3 := ThroughMessage(s2, last);
      PrintedInTurn(before, [last], s.r.meth, s.r.status);
      LastMessage([last], s.r.meth, s.r.status);
      Then(s, PrintAll(before), s2, Print(last), s3);
    }
  }

  lemma NothingPrinted()
    ensures PrintAll([]) == ""
  {
  }

  // ----- a parser that reads either -----

  /** The same parser, made for requests or for replies. */
  function Made(s: Abs, asking: bool): Abs {
    s.(r := s.r.(ptype := if asking then Request else Response, state := if asking then StartReq else StartRes))
  }

  lemma OtherRequestByte(s: Abs, ch: char)
    requires s.r.state.StartReqOrRes? && ch != 'H' && ch != CR && ch != LF
    ensures ADo(s, ch).AAgain? && ADo(ADo(s, ch).s, ch) == ADo(Made(s, true), ch)
  {
    var s1 := Abs(s.r.(flags := NO_FLAGS, clen := NO_LENGTH, ptype := Request, state := StartReq), s.log);
    assert ADo(s, ch) == AAgain(s1);
    assert Transition(s1.r, ch, false) == Transition(Made(s, true).r, ch, false);
    hide Transition;
  }

  lemma HeadBytes(s: Abs)
    requires s.r.state.StartReqOrRes?
    ensures ADo(s, 'H').ANext? && ADo(Made(s, true), 'H').ANext? && ADo(Made(s, false), 'H').ANext?
    ensures ADo(ADo(s, 'H').s, 'E') == ADo(ADo(Made(s, true), 'H').s, 'E')
    ensures ADo(ADo(s, 'H').s, 'T') == ADo(ADo(Made(s, false), 'H').s, 'T')
  {
    hide Put;
    var r := s.r.(flags := NO_FLAGS, clen := NO_LENGTH);
    var log := Put(s.log, MessageBegin);
    assert ADo(s, 'H') == ANext(Abs(r.(state := ResOrRespH), log));
    assert ADo(Made(s, true), 'H') == ANext(Abs(r.(ptype := Request, meth := HEAD, index := 1, state := ReqMethod),
                                                log));
    assert ADo(Made(s, false), 'H') == ANext(Abs(r.(ptype := Response, state := ResH), log));
    HeadSecond(r, log);
  }

  lemma HeadSecond(r: Regs, log: seq<Event>)
    ensures ADo(Abs(r.(state := ResOrRespH), log), 'E') ==
            ADo(Abs(r.(ptype := Request, meth := HEAD, index := 1, state := ReqMethod), log), 'E')
    ensures ADo(Abs(r.(state := ResOrRespH), log), 'T') ==
            ADo(Abs(r.(ptype := Response, state := ResH), log), 'T')
  {
    hide ADo;
    EitherSecond(r, log);
    HeadMethodSecond(r.(ptype := Request, meth := HEAD, index := 1, state := ReqMethod), log);
    ReplySecond(r, log);
  }

  lemma EitherSecond(r: Regs, log: seq<Event>)
    ensures ADo(Abs(r.(state := ResOrRespH), log), 'E') ==
            ANext(Abs(r.(ptype := Request, meth := HEAD, index := 2, state := ReqMethod), log))
    ensures ADo(Abs(r.(state := ResOrRespH), log), 'T') == ANext(Abs(r.(ptype := Response, state := ResHT), log))
  {
  }

  lemma HeadMethodSecond(r: Regs, log: seq<Event>)
    requires r.state.ReqMethod? && r.meth == HEAD && r.index == 1
    ensures ADo(Abs(r, log), 'E') == ANext(Abs(r.(index := 2), log))
  {
    assert MethodString(HEAD) == "HEAD";
    hide MethodString, ReviseMethod;
  }

  lemma ReplySecond(r: Regs, log: seq<Event>)
    ensures ADo(Abs(r.(ptype := Response, state := ResH), log), 'T') ==
            ANext(Abs(r.(ptype := Response, state := ResHT), log))
  {
    hide ADo;
    VersionByte(Abs(r.(ptype := Response, state := ResH), log), 'T', r.(ptype := Response, state := ResHT));
  }

  /** A parser for requests and replies decides by the second byte at the latest, and from then on reads what a parser
      for one of them would have read. */
  lemma DecidesByTheSecondByte(s: Abs, text: string)
    requires s.r.state.StartReqOrRes? && |text| >= 2 && text[0] != CR && text[0] != LF
    requires text[0] == 'H' ==> text[1] == 'E' || text[1] == 'T'
    ensures ARun(s, text, 0) == ARun(Made(s, !(text[0] == 'H' && text[1] == 'T')), text, 0)
  {
    hide ADo, ARun, Made;
    if text[0] != 'H' {
      OtherRequestByte(s, text[0]);
      AStepRun(s, text, 0);
      AStepRun(ADo(s, text[0]).s, text, 0);
      AStepRun(Made(s, true), text, 0);
    } else {
      var asking := text[1] == 'E';
      HeadBytes(s);
      AStepRun(s, text, 0);
      AStepRun(Made(s, asking), text, 0);
      AStepRun(ADo(s, 'H').s, text, 1);
      AStepRun(ADo(Made(s, asking), 'H').s, text, 1);
    }
  }

  lemma TwoLetters(meth: Method)
    ensures var w := MethodString(meth);
            |w| >= 2 && w[0] != CR && w[0] != LF && (w[0] == 'H' ==> w[1] == 'E')
  {
  }

  lemma PrintsTwo(m: Message)
    ensures var w := Print(m);
            && |w| >= 2 && w[0] != CR && w[0] != LF && (w[0] == 'H' ==> w[1] == 'E' || w[1] == 'T')
            && (w[0] == 'H' && w[1] == 'T' <==> m.start.Answering?)
  {
    hide MethodString, PrintHeaders, PrintPayload, ToDecimal, DigitChar;
    if m.start.Asking? {
      TwoLetters(m.start.meth);
      assert Print(m)[0] == MethodString(m.start.meth)[0] && Print(m)[1] == MethodString(m.start.meth)[1];
    } else {
      assert Print(m)[0] == 'H' && Print(m)[1] == 'T';
    }
  }

  /** A parser for either that has read nothing yet inverts the printer of requests and that of replies. */
  lemma EitherInvertsPrinter(p: Snapshot, ms: seq<Message>, asking: bool, feeds: seq<Feed>)
    requires p.r.errno == OK && p.r.state.StartReqOrRes? && RegsOk(p.r) && p.r.meth != CONNECT
    requires Pipeline(ms, asking) && ms != [] && forall f | f in feeds :: Transparent(f.h)
    ensures var (p', pos) := Drive(p, PrintAll(ms), 0, feeds);
            && p'.r.errno == OK && pos <= |PrintAll(ms)|
            && (pos == |PrintAll(ms)| ==>
                  && p'.r.ptype == (if asking then Request else Response)
                  && Merge(p'.trace) == Merge(p.trace) + AllEvents(ms, p.r.meth, p.r.status))
            && ((forall f | f in feeds :: Ordinary(f.h)) && Total(feeds) >= |PrintAll(ms)| ==> pos == |PrintAll(ms)|)
  {
    hide Drive, ARun, Merge, AllEvents, RegsOk, Transparent, Ordinary, Total, Resumable, Good, LeavesOpen, Upgrading,
         Print;
    var s := AbsOfSnapshot(p);
    assert Resumable(p) by { NothingReadYet(p); }
    assert ms[0] in ms;
    PrintsTwo(ms[0]);
    DecidesByTheSecondByte(s, PrintAll(ms));
    MadeWaits(s, asking);
    var s' := ThroughMessages(Made(s, asking), ms, asking);
    ReadToTheEnd(p, PrintAll(ms), s', feeds);
  }

  lemma MadeWaits(s: Abs, asking: bool)
    requires s.r.errno == OK && s.r.meth != CONNECT
    ensures Waits(Made(s, asking).r, asking)
  {
  }

  lemma NothingReadYet(p: Snapshot)
    requires p.r.errno == OK && p.r.state.StartReqOrRes? && RegsOk(p.r)
    ensures Resumable(p)
  {
  }

  // ----- what the application answers -----

  /** The application's answer to on_headers_complete: 0 goes on, 1 says that no body follows, 2 also that another
      protocol follows, and anything else is an error at this byte. */
  lemma AnswerToHeaders(h: Handler, m: M)
    requires m.r.state.HeadersAlmostDone? && HeadOver(m.r) && m.span.NoSpan?
    ensures var asked := UpgradeAsked(m.r);
            var r := m.r;
            var e := HeadersComplete(r.meth, r.status, r.major, r.minor, r.clen, r.flags.chunked, asked);
            var a, s := h(m.trace + [e]), Do(h, m, LF);
            && s.m.trace == m.trace + [e] && !s.Next? && (s.Halt? ==> !s.used)
            && (s.Again? <==> a.code in {0, 1, 2} && !a.pause)
            && s.m.r.errno == (if a.code !in {0, 1, 2} then CbHeadersComplete else if a.pause then Paused else OK)
            && (a.code in {0, 1, 2} ==>
                  && s.m.r.state.HeadersDone? && s.m.r.upgrade == (asked || a.code == 2)
                  && s.m.r.flags == if a.code == 0 then r.flags else r.flags.(skipBody := true))
  {
    hide UpgradeAsked;
    assert Transition(m.r, LF, m.skip) == Go(m.r.(state := HeadersDone, upgrade := UpgradeAsked(m.r)), Keep,
                                             Notify(OnHeadersComplete), Reread);
    hide Transition;
  }

  /** Where no body follows by the application's word, the message is complete with its head, whatever it has announced;
      if another protocol follows, the call returns there. */
  lemma NoBodyFollows(h: Handler, m: M)
    requires m.r.state.HeadersDone? && m.r.flags.skipBody && m.span.NoSpan?
    ensures var s := Do(h, m, LF);
            var b := h(m.trace + [MessageComplete]);
            && s.m.trace == m.trace + [MessageComplete]
            && s.m.r.errno == (if b.code != 0 then CbMessageComplete else if b.pause then Paused else OK)
            && s.m.r.state == NewMessage(m.r) && (s.Next? <==> b == Resp(0, false) && !m.r.upgrade)
            && (s.Halt? ==> s.used) && !s.Again?
  {
    hide NewMessage, MessageNeedsEof;
    assert Transition(m.r, LF, m.skip) == Go(m.r.(state := NewMessage(m.r)), Keep, Notify(OnMessageComplete),
                                             if m.r.upgrade then Leave else Advance);
    hide Transition;
  }

  /** The error for a data callback that does not return 0, by what it was given. */
  lemma AnswerToData(h: Handler, m: M, more: string)
    requires m.span.Marked?
    ensures var k := m.span.kind;
            var e := Data(k, m.span.bytes + more);
            var a, m' := h(m.trace + [e]), FireData(h, m, k, more);
            && m'.trace == m.trace + [e] && m'.span.NoSpan? && m'.r == m.r.(errno := m'.r.errno)
            && (a.code == 0 ==> m'.r.errno == if a.pause then Paused else OK)
            && (a.code != 0 ==>
                  && (k.Url? ==> m'.r.errno == CbUrl) && (k.Status? ==> m'.r.errno == CbStatus)
                  && (k.Field? ==> m'.r.errno == CbHeaderField) && (k.Value? ==> m'.r.errno == CbHeaderValue)
                  && (k.Body? ==> m'.r.errno == CbBody))
  {
  }

  /** The same for the callbacks without data, other than the one at the end of the headers. */
  lemma AnswerToNote(h: Handler, m: M, n: Note)
    requires !n.OnHeadersComplete?
    ensures var e := if n.OnMessageBegin? then MessageBegin else if n.OnChunkHeader? then ChunkHeader(m.r.clen)
                     else if n.OnChunkComplete? then ChunkComplete else MessageComplete;
            var a, m' := h(m.trace + [e]), FireNote(h, m, n);
            && m'.trace == m.trace + [e] && m'.r == m.r.(errno := m'.r.errno)
            && (a.code == 0 ==> m'.r.errno == if a.pause then Paused else OK)
            && (a.code != 0 ==>
                  && (n.OnMessageBegin? ==> m'.r.errno == CbMessageBegin)
                  && (n.OnChunkHeader? ==> m'.r.errno == CbChunkHeader)
                  && (n.OnChunkComplete? ==> m'.r.errno == CbChunkComplete)
                  && (n.OnMessageComplete? ==> m'.r.errno == CbMessageComplete))
  {
  }
}
