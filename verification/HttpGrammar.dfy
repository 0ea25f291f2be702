/** The order of the callbacks of a request parser, and the number of body bytes they deliver. */
module HttpGrammar {
  import opened Bytes
  import opened HttpTypes
  import opened HttpAutomaton
  import opened HttpRun
  import opened HttpInvariant
  import opened HttpSkips
  import opened HttpStream
  import opened HttpSegments

  /** Where a list of callbacks stands; `left` bytes of a body or of a chunk are still to be delivered. */
  datatype Place =
    | Idle                  // between messages
    | Begun                 // message_begin
    | InTarget              // url+
    | InField(trailer: bool)
    | InContent(trailer: bool)
    | Entity(left: nat)     // a body of known length
    | BeforeChunk
    | Chunk(left: nat)
    | Trailer               // the header of the last chunk has been seen
    | Wrong

  /** The body that follows the headers. */
  function Announced(e: Event): Place
    requires e.HeadersComplete?
  {
    if e.upgrade && e.meth == CONNECT then Entity(0)
    else if e.chunked then BeforeChunk
    else if e.length == NO_LENGTH then Entity(0)
    else Entity(e.length)
  }

  /** message := begin url+ (field+ value+)* headers_complete body complete
      body    := data* | (chunk_header data+ chunk_complete)* chunk_header (field+ value+)* chunk_complete */
  function Follow(g: Place, e: Event): Place {
    match g
    case Idle => if e.MessageBegin? then Begun else Wrong
    case Begun => if e.Data? && e.kind == Url then InTarget else Wrong
    case InTarget =>
      if e.Data? && e.kind == Url then g
      else if e.Data? && e.kind == Field then InField(false)
      else if e.HeadersComplete? then Announced(e)
      else Wrong
    case InField(t) =>
      if e.Data? && e.kind == Field then g else if e.Data? && e.kind == Value then InContent(t) else Wrong
    case InContent(t) =>
      if e.Data? && e.kind == Value then g
      else if e.Data? && e.kind == Field then InField(t)
      else if e.HeadersComplete? && !t then Announced(e)
      else if e.ChunkComplete? && t then Entity(0)
      else Wrong
    case Entity(left) =>
      if e.Data? && e.kind == Body && |e.bytes| <= left then Entity(left - |e.bytes|)
      else if e.MessageComplete? && left == 0 then Idle
      else Wrong
    case BeforeChunk =>
      if !e.ChunkHeader? then Wrong else if e.size == 0 then Trailer else Chunk(e.size)
    case Chunk(left) =>
      if e.Data? && e.kind == Body && |e.bytes| <= left then Chunk(left - |e.bytes|)
      else if e.ChunkComplete? && left == 0 then BeforeChunk
      else Wrong
    case Trailer =>
      if e.Data? && e.kind == Field then InField(true) else if e.ChunkComplete? then Entity(0) else Wrong
    case Wrong => Wrong
  }

  function PlaceOf(trace: seq<Event>): Place {
    if trace == [] then Idle else Follow(PlaceOf(trace[..|trace| - 1]), trace[|trace| - 1])
  }

  lemma PlaceOfOne(trace: seq<Event>, e: Event)
    ensures PlaceOf(trace + [e]) == Follow(PlaceOf(trace), e)
  {
    assert (trace + [e])[..|trace|] == trace;
  }

  lemma FollowTwice(g: Place, k: DataKind, a: string, b: string)
    ensures Follow(Follow(g, Data(k, a)), Data(k, b)) == Follow(g, Data(k, a + b))
  {
  }

  lemma PlaceOfPut(log: seq<Event>, e: Event)
    ensures PlaceOf(Put(log, e)) == Follow(PlaceOf(log), e)
  {
    var n := |log|;
    if e.Data? && n > 0 && log[n - 1].Data? && log[n - 1].kind == e.kind {
      FollowTwice(PlaceOf(log[..n - 1]), e.kind, log[n - 1].bytes, e.bytes);
      PlaceOfOne(log[..n - 1], Data(e.kind, log[n - 1].bytes + e.bytes));
    } else {
      PlaceOfOne(log, e);
    }
  }

  /** Joining neighbouring data does not matter. */
  lemma {:induction false} PlaceOfMerge(trace: seq<Event>)
    ensures PlaceOf(Merge(trace)) == PlaceOf(trace)
  {
    var n := |trace|;
    if n > 0 {
      PlaceOfMerge(trace[..n - 1]);
      PlaceOfPut(Merge(trace[..n - 1]), trace[n - 1]);
    }
  }

  /** What the state of a request parser says about the callbacks made so far. */
  ghost predicate Couples(r: Regs, g: Place) {
    && r.ptype.Request? && !r.flags.skipBody
    && var s := r.state;
       if s.Dead? || s.StartReq? then g == Idle
       else if s.ReqMethod? || s.ReqSpacesBeforeUrl? then g == Begun && !r.flags.trailing
       else if s.HeaderFieldStart? || s.HeadersAlmostDone? then AfterLine(r, g)
       else if s.HeaderField? || s.HeaderValueDiscardWs? || s.HeaderValueDiscardWsAlmostDone?
         || s.HeaderValueDiscardLws?
       then g == InField(r.flags.trailing)
       else if s.HeaderValueStart? || s.HeaderValue? || s.HeaderValueLws? || s.HeaderAlmostDone?
       then g == InContent(r.flags.trailing)
       else if s.HeadersDone? then g == Announced(EventOf(OnHeadersComplete, r))
       else if s.ChunkSizeStart? || s.ChunkSize? || s.ChunkParameters? || s.ChunkSizeAlmostDone? then g == BeforeChunk
       else if s.ChunkData? then g == Chunk(r.clen)
       else if s.ChunkDataAlmostDone? || s.ChunkDataDone? then g == Chunk(0)
       else if s.BodyIdentity? then g == Entity(r.clen)
       else if s.MessageDone? then g == Entity(0)
       else g == InTarget && !r.flags.trailing && (PartOf(s).WithinUrl? || InRequestVersion(s))
  }

  predicate InRequestVersion(s: State) {
    s.ReqHttpStart? || s.ReqHttpH? || s.ReqHttpHT? || s.ReqHttpHTT? || s.ReqHttpHTTP? || s.ReqHttpMajor?
    || s.ReqHttpDot? || s.ReqHttpMinor? || s.ReqHttpEnd? || s.ReqLineAlmostDone?
  }

  ghost predicate AfterLine(r: Regs, g: Place) {
    if r.flags.trailing then g == Trailer || g == InContent(true) else g == InTarget || g == InContent(false)
  }

  /** The effect of one pass through the switch on the place. */
  function Moved(g: Place, a: Act, ch: char): Place
    requires a.Go?
  {
    var started := if a.mark.Open? then Follow(g, Data(a.mark.kind, "")) else g;
    match a.cb
    case Notify(n) => Follow(started, EventOf(n, a.r))
    case Flush(k, last) => if last then Follow(started, Data(k, [ch])) else started
    case Quiet =>
      if a.move.Advance? && Growing(a.r.state, a.mark).Marked?
      then Follow(started, Data(Growing(a.r.state, a.mark).kind, [ch]))
      else started
  }

  lemma LogMoves(log: seq<Event>, a: Act, ch: char)
    requires a.Go?
    ensures PlaceOf(Log(log, a, ch)) == Moved(PlaceOf(log), a, ch)
  {
    hide PlaceOf, Put, Follow, Growing;
    var started := if a.mark.Open? then Put(log, Data(a.mark.kind, "")) else log;
    if a.mark.Open? {
      PlaceOfPut(log, Data(a.mark.kind, ""));
    }
    match a.cb
    case Notify(n) => PlaceOfPut(started, EventOf(n, a.r));
    case Flush(k, last) => PlaceOfPut(started, Data(k, [ch]));
    case Quiet =>
      if Growing(a.r.state, a.mark).Marked? {
        PlaceOfPut(started, Data(Growing(a.r.state, a.mark).kind, [ch]));
      }
  }

  /** One pass through the switch keeps the callbacks in order. */
  ghost predicate Keeps(g: Place, a: Act, ch: char) {
    a.Go? ==> Couples(a.r, Moved(g, a, ch))
  }

  lemma StartsKeep(r: Regs, g: Place, ch: char)
    requires PartOf(r.state).InStart? && Couples(r, g)
    ensures Keeps(g, Starts(r, ch), ch)
  {
    hide Keeps, Starts, Moved, FirstMethod;
    if r.state.Dead? {
      DeadKeeps(r, g, ch);
    } else if r.state.StartReq? {
      RequestStartKeeps(r, g, ch);
    }
  }

  lemma DeadKeeps(r: Regs, g: Place, ch: char)
    requires r.state.Dead? && Couples(r, g)
    ensures Keeps(g, Starts(r, ch), ch)
  {
    hide Follow, FirstMethod;
  }

  lemma RequestStartKeeps(r: Regs, g: Place, ch: char)
    requires r.state.StartReq? && Couples(r, g)
    ensures Keeps(g, Starts(r, ch), ch)
  {
    hide FirstMethod, IsAlpha;
  }

  lemma VersionKeeps(r: Regs, g: Place, ch: char)
    requires PartOf(r.state).InVersion? && Couples(r, g)
    ensures Keeps(g, Version(r, ch), ch)
  {
    var a := Version(r, ch);
    assert InRequestVersion(r.state);
    if a.Go? {
      VersionShape(r, ch);
      assert a.r.state.HeaderFieldStart? || InRequestVersion(a.r.state);
      hide Version, PartOf;
    }
  }

  lemma MethodKeeps(r: Regs, g: Place, ch: char)
    requires PartOf(r.state).InMethod? && Couples(r, g)
    ensures Keeps(g, MethodByte(r, ch), ch)
  {
    hide Follow, ReviseMethod, MethodString;
  }

  lemma UrlStartKeeps(r: Regs, g: Place, ch: char)
    requires PartOf(r.state).BeforeUrl? && Couples(r, g)
    ensures Keeps(g, UrlStart(r, ch), ch)
  {
    var a := UrlStart(r, ch);
    assert a.Go? && ch != ' ' ==> PartOf(a.r.state).WithinUrl?;
  }

  lemma UrlCouples(r: Regs, g: Place)
    requires PartOf(r.state).WithinUrl?
    ensures Couples(r, g) <==> r.ptype.Request? && !r.flags.skipBody && g == InTarget && !r.flags.trailing
  {
  }

  lemma UrlEndCouples(r: Regs, g: Place)
    requires r.state.ReqHttpStart? || r.state.ReqLineAlmostDone? || r.state.HeaderFieldStart?
    requires r.ptype.Request? && !r.flags.skipBody && g == InTarget && !r.flags.trailing
    ensures Couples(r, g)
  {
  }

  lemma UrlKeeps(r: Regs, g: Place, ch: char)
    requires PartOf(r.state).WithinUrl? && Couples(r, g)
    ensures Keeps(g, UrlByte(r, ch), ch)
  {
    UrlByteShape(r, ch);
    var a := UrlByte(r, ch);
    UrlCouples(r, g);
    if a.Go? {
      if ch == ' ' || ch == CR || ch == LF {
        UrlEndCouples(a.r, g);
      } else {
        UrlCouples(a.r, g);
      }
    }
    hide UrlByte, Couples, PartOf;
  }

  lemma NameByteKeeps(r: Regs, g: Place, ch: char)
    requires r.state.HeaderField? && Couples(r, g)
    ensures Keeps(g, Names(r, ch), ch)
  {
    hide FieldNext, FieldFirst, IsToken;
    if IsToken(ch) {
    } else if ch == ':' {
    }
  }

  lemma BlankKeeps(r: Regs, g: Place, ch: char)
    requires r.state.HeaderFieldStart? && Couples(r, g) && (ch == CR || ch == LF || !IsToken(ch))
    ensures Keeps(g, Names(r, ch), ch)
  {
    hide Follow, Names, Couples;
    BlankActs(r, ch);
    BlankCouples(r, g);
  }

  lemma BlankCouples(r: Regs, g: Place)
    requires r.state.HeaderFieldStart? && Couples(r, g)
    ensures Couples(r.(state := HeadersAlmostDone), g)
  {
  }

  lemma BlankActs(r: Regs, ch: char)
    requires r.state.HeaderFieldStart? && (ch == CR || ch == LF || !IsToken(ch))
    ensures Names(r, ch) ==
            if ch == CR then To(r, HeadersAlmostDone)
            else if ch == LF then HttpAutomaton.Again(r, HeadersAlmostDone)
            else Err(r, InvalidHeaderToken)
  {
    hide FieldFirst, IsToken;
  }

  lemma NameFirstKeeps(r: Regs, g: Place, ch: char)
    requires r.state.HeaderFieldStart? && Couples(r, g) && ch != CR && ch != LF && IsToken(ch)
    ensures Keeps(g, Names(r, ch), ch)
  {
    hide FieldNext, FieldFirst, IsToken;
  }

  lemma NameStartKeeps(r: Regs, g: Place, ch: char)
    requires r.state.HeaderFieldStart? && Couples(r, g)
    ensures Keeps(g, Names(r, ch), ch)
  {
    hide Names, IsToken, Couples, Keeps;
    if ch == CR || ch == LF || !IsToken(ch) {
      BlankKeeps(r, g, ch);
    } else {
      NameFirstKeeps(r, g, ch);
    }
  }

  lemma NamesKeep(r: Regs, g: Place, ch: char)
    requires PartOf(r.state).InName? && Couples(r, g)
    ensures Keeps(g, Names(r, ch), ch)
  {
    hide Names, Couples, Keeps;
    if r.state.HeaderField? {
      NameByteKeeps(r, g, ch);
    } else {
      NameStartKeeps(r, g, ch);
    }
  }

  lemma ValuesKeep(r: Regs, g: Place, ch: char, skip: bool)
    requires PartOf(r.state).InValue? && RegsOk(r) && r.errno == OK && Couples(r, g)
    ensures Keeps(g, Values(r, ch, skip), ch)
  {
    if ch == CR || ch == LF {
    } else {
      ValueNextFrame(r, ch);
    }
  }

  lemma ValueNextFrame(r: Regs, ch: char)
    ensures var r' := ValueNext(r, ch);
            r' == r.(hstate := r'.hstate, index := r'.index, flags := r'.flags, clen := r'.clen, errno := r'.errno)
            && r'.flags.trailing == r.flags.trailing && r'.flags.skipBody == r.flags.skipBody
  {
    if r.hstate.ContentLength? || r.hstate.ContentLengthNum? || r.hstate.ContentLengthWs? {
      LengthFrame(r, ch);
    } else if r.hstate.ConnectionKeepAlive? || r.hstate.ConnectionClose? || r.hstate.ConnectionUpgrade? {
      ItemEndFrame(r, ch);
    } else {
      WordFrame(r, ch);
    }
    hide ValueNext;
  }

  lemma LengthFrame(r: Regs, ch: char)
    requires r.hstate.ContentLength? || r.hstate.ContentLengthNum? || r.hstate.ContentLengthWs?
    ensures var r' := ValueNext(r, ch); r' == r.(hstate := r'.hstate, clen := r'.clen, errno := r'.errno)
  {
    hide Shifted, Lower;
  }

  lemma ItemEndFrame(r: Regs, ch: char)
    requires r.hstate.ConnectionKeepAlive? || r.hstate.ConnectionClose? || r.hstate.ConnectionUpgrade?
    ensures var r' := ValueNext(r, ch);
            && r' == r.(hstate := r'.hstate, index := r'.index, flags := r'.flags)
            && r'.flags.trailing == r.flags.trailing && r'.flags.skipBody == r.flags.skipBody
  {
    ItemFrame(r.flags, r.hstate);
    assert ValueNext(r, ch) == ValueItemEnd(r, ch);
    hide ValueNext, ConnectionItem;
  }

  lemma WordFrame(r: Regs, ch: char)
    requires !r.hstate.ContentLength? && !r.hstate.ContentLengthNum? && !r.hstate.ContentLengthWs?
    requires !r.hstate.ConnectionKeepAlive? && !r.hstate.ConnectionClose? && !r.hstate.ConnectionUpgrade?
    ensures var r' := ValueNext(r, ch); r' == r.(hstate := r'.hstate, index := r'.index)
  {
    hide MatchWord, IsToken, Lower;
  }

  lemma ValueFirstFrame(r: Regs, ch: char)
    ensures var a := ValueFirst(r, ch);
            a.Go? ==>
              && a.mark == Open(Value) && a.cb.Quiet? && a.move.Advance? && a.r.state.HeaderValue?
              && a.r.ptype == r.ptype
              && a.r.flags.trailing == r.flags.trailing && a.r.flags.skipBody == r.flags.skipBody
  {
  }

  lemma ValueStartKeeps(r: Regs, g: Place, ch: char)
    requires (r.state.HeaderValueDiscardWs? || r.state.HeaderValueStart?) && Couples(r, g)
    ensures Keeps(g, ValueFirst(r, ch), ch)
  {
    ValueFirstFrame(r, ch);
    hide ValueFirst;
  }

  lemma FinishHeaderFrame(r: Regs)
    ensures FinishHeader(r).trailing == r.flags.trailing && FinishHeader(r).skipBody == r.flags.skipBody
  {
    ItemFrame(r.flags, r.hstate);
    hide ConnectionItem;
  }

  lemma ItemFrame(f: Flags, h: HState)
    ensures ConnectionItem(f, h).trailing == f.trailing && ConnectionItem(f, h).skipBody == f.skipBody
  {
    if h.ConnectionKeepAlive? {
    } else if h.ConnectionClose? {
    } else if h.ConnectionUpgrade? {
    } else {
      assert ConnectionItem(f, h) == f;
    }
  }

  lemma ContinuedKeeps(r: Regs, g: Place, ch: char)
    requires (r.state.HeaderValueLws? || r.state.HeaderValueDiscardLws?) && Couples(r, g) && (ch == ' ' || ch == HTAB)
    ensures Keeps(g, ValueEdges(r, ch), ch)
  {
    hide ValueFirst, FinishHeader, Follow;
  }

  lemma FinishedKeeps(r: Regs, g: Place, ch: char)
    requires (r.state.HeaderValueLws? || r.state.HeaderValueDiscardLws?) && Couples(r, g) && ch != ' ' && ch != HTAB
    ensures Keeps(g, ValueEdges(r, ch), ch)
  {
    FinishHeaderFrame(r);
    hide ValueFirst, FinishHeader;
  }

  lemma ValueEndKeeps(r: Regs, g: Place, ch: char)
    requires (r.state.HeaderValueLws? || r.state.HeaderValueDiscardLws?) && Couples(r, g)
    ensures Keeps(g, ValueEdges(r, ch), ch)
  {
    hide ValueEdges, Couples, Keeps;
    if ch == ' ' || ch == HTAB {
      ContinuedKeeps(r, g, ch);
    } else {
      FinishedKeeps(r, g, ch);
    }
  }

  lemma EdgesKeep(r: Regs, g: Place, ch: char)
    requires PartOf(r.state).AroundValue? && Couples(r, g)
    ensures Keeps(g, ValueEdges(r, ch), ch)
  {
    hide ValueFirst, FinishHeader, Follow, ValueEdges, Keeps, Couples;
    if r.state.HeaderValueLws? || r.state.HeaderValueDiscardLws? {
      ValueEndKeeps(r, g, ch);
    } else if r.state.HeaderAlmostDone? || r.state.HeaderValueDiscardWsAlmostDone? {
      LineEndKeeps(r, g, ch);
    } else if r.state.HeaderValueDiscardWs? && (ch == ' ' || ch == HTAB || ch == CR || ch == LF) {
      ValueSpaceKeeps(r, g, ch);
    } else {
      ValueStartKeeps(r, g, ch);
      EdgeIsFirst(r, ch);
    }
  }

  lemma LineEndKeeps(r: Regs, g: Place, ch: char)
    requires (r.state.HeaderAlmostDone? || r.state.HeaderValueDiscardWsAlmostDone?) && Couples(r, g)
    ensures Keeps(g, ValueEdges(r, ch), ch)
  {
    hide ValueFirst, FinishHeader, Follow;
  }

  lemma ValueSpaceKeeps(r: Regs, g: Place, ch: char)
    requires r.state.HeaderValueDiscardWs? && Couples(r, g) && (ch == ' ' || ch == HTAB || ch == CR || ch == LF)
    ensures Keeps(g, ValueEdges(r, ch), ch)
  {
    hide ValueFirst, FinishHeader, Follow;
  }

  lemma EdgeIsFirst(r: Regs, ch: char)
    requires r.state.HeaderValueStart?
             || (r.state.HeaderValueDiscardWs? && !(ch == ' ' || ch == HTAB || ch == CR || ch == LF))
    ensures ValueEdges(r, ch) == ValueFirst(r, ch)
  {
    hide ValueFirst;
  }

  lemma HeadersEndKeeps(r: Regs, g: Place, ch: char)
    requires PartOf(r.state).AtHeadersEnd? && Couples(r, g)
    ensures Keeps(g, HeadersEnd(r, ch), ch)
  {
    hide HeadersEnd, Couples, Keeps;
    if r.flags.trailing {
      TrailerEndKeeps(r, g, ch);
    } else {
      HeadKeeps(r, g, ch);
    }
  }

  lemma TrailerEndKeeps(r: Regs, g: Place, ch: char)
    requires PartOf(r.state).AtHeadersEnd? && Couples(r, g) && r.flags.trailing
    ensures Keeps(g, HeadersEnd(r, ch), ch)
  {
    hide UpgradeAsked;
  }

  lemma HeadKeeps(r: Regs, g: Place, ch: char)
    requires PartOf(r.state).AtHeadersEnd? && Couples(r, g) && !r.flags.trailing
    ensures Keeps(g, HeadersEnd(r, ch), ch)
  {
    hide UpgradeAsked;
    var r' := r.(state := HeadersDone, upgrade := UpgradeAsked(r));
    assert EventOf(OnHeadersComplete, r').HeadersComplete?;
  }

  lemma BodyStartKeeps(r: Regs, g: Place, ch: char)
    requires PartOf(r.state).AtBodyStart? && RegsOk(r) && Couples(r, g)
    ensures Keeps(g, BodyStart(r, ch), ch)
  {
    hide BodyStart, RegsOk, Couples, Keeps;
    if BodyStart(r, ch).Go? && BodyStart(r, ch).cb.Notify? {
      NoBodyKeeps(r, g, ch);
    } else {
      SomeBodyKeeps(r, g, ch);
    }
  }

  lemma NoBodyKeeps(r: Regs, g: Place, ch: char)
    requires PartOf(r.state).AtBodyStart? && Couples(r, g) && BodyStart(r, ch).Go? && BodyStart(r, ch).cb.Notify?
    ensures Keeps(g, BodyStart(r, ch), ch)
  {
    var a := BodyStart(r, ch);
    assert a == Go(r.(state := NewMessage(r)), Keep, Notify(OnMessageComplete), a.move) && g == Entity(0);
    hide BodyStart;
  }

  lemma SomeBodyKeeps(r: Regs, g: Place, ch: char)
    requires PartOf(r.state).AtBodyStart? && RegsOk(r) && Couples(r, g)
    requires !(BodyStart(r, ch).Go? && BodyStart(r, ch).cb.Notify?)
    ensures Keeps(g, BodyStart(r, ch), ch)
  {
    hide Follow, NewMessage;
  }

  lemma ChunkSizesKeep(r: Regs, g: Place, ch: char)
    requires PartOf(r.state).InChunkSize? && Couples(r, g)
    ensures Keeps(g, ChunkSizes(r, ch), ch)
  {
    if r.state.ChunkSizeAlmostDone? {
      ChunkHeaderKeeps(r, g, ch);
    } else {
      ChunkLineFrame(r, ch);
      hide ChunkSizes, Follow;
    }
  }

  lemma ChunkLineFrame(r: Regs, ch: char)
    requires PartOf(r.state).InChunkSize? && !r.state.ChunkSizeAlmostDone?
    ensures var a := ChunkSizes(r, ch);
            a.Go? ==> && a == Go(r.(state := a.r.state, clen := a.r.clen), Keep, Quiet, Advance)
                      && PartOf(a.r.state).InChunkSize? && !a.r.state.ChunkSizeStart?
  {
    hide Shifted, Unhex;
  }

  lemma ChunkHeaderKeeps(r: Regs, g: Place, ch: char)
    requires r.state.ChunkSizeAlmostDone? && Couples(r, g)
    ensures Keeps(g, ChunkSizes(r, ch), ch)
  {
    if ch == LF && r.clen == 0 {
    } else {
    }
  }

  lemma ChunkDataKeeps(r: Regs, g: Place, ch: char)
    requires r.state.ChunkData? && RegsOk(r) && Couples(r, g)
    ensures Keeps(g, ChunkBody(r, ch), ch)
  {
    hide ChunkBody, RegsOk, Couples, Keeps;
    if r.clen == 1 {
      LastOfChunkKeeps(r, g, ch);
    } else {
      MoreOfChunkKeeps(r, g, ch);
    }
  }

  lemma LastOfChunkKeeps(r: Regs, g: Place, ch: char)
    requires r.state.ChunkData? && RegsOk(r) && Couples(r, g) && r.clen == 1
    ensures Keeps(g, ChunkBody(r, ch), ch)
  {
    assert |""| == 0 && |[ch]| == 1;
  }

  lemma MoreOfChunkKeeps(r: Regs, g: Place, ch: char)
    requires r.state.ChunkData? && RegsOk(r) && Couples(r, g) && r.clen != 1
    ensures Keeps(g, ChunkBody(r, ch), ch)
  {
    assert |""| == 0 && |[ch]| == 1;
  }

  lemma ChunkCrKeeps(r: Regs, g: Place, ch: char)
    requires r.state.ChunkDataAlmostDone? && Couples(r, g)
    ensures Keeps(g, ChunkBody(r, ch), ch)
  {
    hide Follow;
  }

  lemma ChunkLfKeeps(r: Regs, g: Place, ch: char)
    requires r.state.ChunkDataDone? && Couples(r, g)
    ensures Keeps(g, ChunkBody(r, ch), ch)
  {
    hide ChunkBody;
    ChunkEndActs(r, ch);
  }

  lemma ChunkEndKeeps(r: Regs, g: Place, ch: char)
    requires (r.state.ChunkDataAlmostDone? || r.state.ChunkDataDone?) && Couples(r, g)
    ensures Keeps(g, ChunkBody(r, ch), ch)
  {
    hide ChunkBody, Couples, Keeps;
    if r.state.ChunkDataDone? {
      ChunkLfKeeps(r, g, ch);
    } else {
      ChunkCrKeeps(r, g, ch);
    }
  }

  lemma ChunkBodyKeeps(r: Regs, g: Place, ch: char)
    requires PartOf(r.state).InChunkBody? && RegsOk(r) && Couples(r, g)
    ensures Keeps(g, ChunkBody(r, ch), ch)
  {
    hide ChunkBody, RegsOk, Couples, Keeps;
    if r.state.ChunkData? {
      ChunkDataKeeps(r, g, ch);
    } else {
      ChunkEndKeeps(r, g, ch);
    }
  }

  lemma BodyKeeps(r: Regs, g: Place, ch: char)
    requires PartOf(r.state).InBody? && RegsOk(r) && Couples(r, g)
    ensures Keeps(g, PlainBody(r), ch)
  {
    if r.state.MessageDone? {
      assert NewMessage(r).StartReq? || NewMessage(r).Dead?;
    } else {
      BodyDataKeeps(r, g, ch);
    }
  }

  lemma BodyDataKeeps(r: Regs, g: Place, ch: char)
    requires r.state.BodyIdentity? && RegsOk(r) && Couples(r, g)
    ensures Keeps(g, PlainBody(r), ch)
  {
    hide PlainBody, RegsOk, Couples, Keeps;
    if r.clen == 1 {
      LastOfBodyKeeps(r, g, ch);
    } else {
      MoreOfBodyKeeps(r, g, ch);
    }
  }

  lemma LastOfBodyKeeps(r: Regs, g: Place, ch: char)
    requires r.state.BodyIdentity? && RegsOk(r) && Couples(r, g) && r.clen == 1
    ensures Keeps(g, PlainBody(r), ch)
  {
    assert |""| == 0 && |[ch]| == 1;
  }

  lemma MoreOfBodyKeeps(r: Regs, g: Place, ch: char)
    requires r.state.BodyIdentity? && RegsOk(r) && Couples(r, g) && r.clen != 1
    ensures Keeps(g, PlainBody(r), ch)
  {
    assert |""| == 0 && |[ch]| == 1;
  }

  lemma TransitionKeeps(r: Regs, g: Place, ch: char, skip: bool)
    requires RegsOk(r) && r.errno == OK && Couples(r, g)
    ensures Keeps(g, Transition(r, ch, skip), ch)
  {
    hide RegsOk, Couples, Keeps;
    match PartOf(r.state)
    case InStart => StartsKeep(r, g, ch);
    case InVersion => VersionKeeps(r, g, ch);
    case InStatus => NotInStatus(r, g);
    case InMethod => MethodKeeps(r, g, ch);
    case BeforeUrl => UrlStartKeeps(r, g, ch);
    case WithinUrl => UrlKeeps(r, g, ch);
    case InName => NamesKeep(r, g, ch);
    case InValue => ValuesKeep(r, g, ch, skip);
    case AroundValue => EdgesKeep(r, g, ch);
    case AtHeadersEnd => HeadersEndKeeps(r, g, ch);
    case AtBodyStart => BodyStartKeeps(r, g, ch);
    case InChunkSize => ChunkSizesKeep(r, g, ch);
    case InChunkBody => ChunkBodyKeeps(r, g, ch);
    case InBody => BodyKeeps(r, g, ch);
  }

  lemma NotInStatus(r: Regs, g: Place)
    requires Couples(r, g)
    ensures !PartOf(r.state).InStatus?
  {
  }

  lemma ApplyLog(h: Handler, m: M, a: Act, ch: char)
    requires MOk(m) && ActOk(m.r.state, a) && MarksOk(m.r.state, a, m.span) && Transparent(h)
    ensures var s := Apply(h, m, a, ch);
            if a.Fail? then s.Halt? && s.m.r.errno !in {OK, Paused} && Norm(s.m) == Norm(m)
            else s.m.r == a.r.(errno := s.m.r.errno) && s.m.r.errno in {OK, Paused} && Norm(s.m) == Log(Norm(m), a, ch)
  {
    hide Log, Norm, MOk, MarksOk, Transparent, Apply, ActOk;
    ApplySim(h, m, a, ch);
    ApplyRegs(h, m, a, ch);
  }

  lemma ApplyRegs(h: Handler, m: M, a: Act, ch: char)
    requires MOk(m) && ActOk(m.r.state, a) && MarksOk(m.r.state, a, m.span) && Transparent(h)
    ensures var s := Apply(h, m, a, ch);
            if a.Fail? then s.Halt? && s.m == m.(r := a.r.(errno := a.error)) && a.error !in {OK, Paused}
            else s.m.r == a.r.(errno := s.m.r.errno) && s.m.r.errno in {OK, Paused} && (s.Halt? || s.m.r.errno == OK)
  {
    hide MOk, MarksOk, RegsOk, OpenMark;
    if a.Go? && a.cb.Notify? {
      NoteSim(h, MovedTo(m, a.r, a.mark, ch), a.cb.note);
    } else if a.Go? && a.cb.Flush? {
      DataSim(h, MovedTo(m, a.r, a.mark, ch), a.cb.kind, if a.cb.last then [ch] else "");
    }
  }

  /** A call in progress whose callbacks are in order. */
  ghost predicate InOrder(r: Regs, log: seq<Event>) {
    if r.errno in {OK, Paused} then Couples(r, PlaceOf(log)) else PlaceOf(log) != Wrong
  }

  lemma NotWrong(r: Regs, log: seq<Event>)
    requires InOrder(r, log)
    ensures PlaceOf(log) != Wrong
  {
  }

  lemma CouplesErrno(r: Regs, g: Place, e: Errno)
    requires Couples(r, g)
    ensures Couples(r.(errno := e), g)
  {
  }

  lemma DoInOrder(h: Handler, m: M, ch: char)
    requires MOk(m) && Transparent(h) && InOrder(m.r, Norm(m))
    ensures var s := Do(h, m, ch); InOrder(s.m.r, Norm(s.m))
  {
    var a := Transition(m.r, ch, m.skip);
    var g := PlaceOf(Norm(m));
    TransitionOk(m, ch);
    InHeader(m);
    hide MOk, RegsOk, MarksOk, Transition, Norm, Couples, PlaceOf, Transparent;
    ApplyLog(h, m, a, ch);
    MOkRegs(m);
    NotWrong(m.r, Norm(m));
    if a.Go? {
      TransitionKeeps(m.r, g, ch, m.skip);
      LogMoves(Norm(m), a, ch);
      CouplesErrno(a.r, Moved(g, a, ch), Do(h, m, ch).m.r.errno);
    }
  }

  lemma MOkRegs(m: M)
    requires MOk(m)
    ensures RegsOk(m.r) && m.r.errno == OK
  {
  }

  lemma {:induction false} RunInOrder(h: Handler, m: M, data: string, i: nat)
    requires MOk(m) && Transparent(h) && InOrder(m.r, Norm(m)) && i <= |data|
    ensures var o := Run(h, m, data, i); InOrder(o.m.r, Norm(o.m))
    decreases |data| - i, Rank(m.r.state)
  {
    hide MOk, InOrder, Norm, Transparent, Do, Run;
    if i == |data| {
      RunAtEnd(h, m, data);
    } else {
      DoInOrder(h, m, data[i]);
      DoOk(h, m, data[i]);
      SpecStep(h, m, data, i);
      match Do(h, m, data[i])
      case Next(m') => RunInOrder(h, m', data, i + 1);
      case Again(m') => RunInOrder(h, m', data, i);
      case Halt(_, _) =>
    }
  }

  /** A request parser between calls, with all its callbacks so far in order. */
  ghost predicate Orderly(p: Snapshot) {
    && InOrder(p.r, p.trace)
    && (p.r.errno in {OK, Paused} ==> Resumable(Unpaused(p)))
  }

  lemma DeliveredInOrder(m: M)
    requires PlaceOf(Norm(m)) != Wrong
    ensures PlaceOf(m.trace) != Wrong
  {
    PlaceOfMerge(m.trace);
    if m.span.Marked? {
      PlaceOfPut(Merge(m.trace), Data(m.span.kind, m.span.bytes));
    }
  }

  lemma SnapshotInOrder(p: Snapshot, m: M)
    requires m.r == p.r && InOrder(m.r, Norm(m)) && m.trace == p.trace
    requires p.r.errno in {OK, Paused} ==> Norm(m) == Merge(p.trace)
    ensures InOrder(p.r, p.trace)
  {
    PlaceOfMerge(p.trace);
    if p.r.errno !in {OK, Paused} {
      DeliveredInOrder(m);
    }
  }

  /** Event grammar: after any call, with any piece of input and any transparent callbacks, the callbacks
      made so far are the beginning of a sequence of whole messages, each with all of its body. */
  lemma CallOrderly(h: Handler, p: Snapshot, data: string)
    requires Orderly(p) && Transparent(h)
    ensures Orderly(Call(h, p, data).p)
  {
    if p.r.errno != OK {
    } else if data == "" {
      NoEofBody(p);
    } else {
      hide MOk, RegsOk, InOrder, Norm, Transparent, Run, Resumable, Begin, Call;
      var m := Begin(p.r, p.trace);
      assert Unpaused(p) == p;
      BeginNorm(p);
      BeginInOrder(p);
      RunInOrder(h, m, data, 0);
      RunOk(h, m, data, 0);
      CallIsRun(h, p, data);
      var o := Run(h, m, data, 0);
      if !o.stopped {
        FinishInOrder(h, o.m);
      } else {
        StopInOrder(o.m);
      }
    }
  }

  lemma NoEofBody(p: Snapshot)
    requires Orderly(p) && p.r.errno == OK
    ensures !p.r.state.BodyIdentityEof? && forall e :: InOrder(p.r.(errno := e), p.trace)
  {
  }

  lemma BeginInOrder(p: Snapshot)
    requires Orderly(p) && p.r.errno == OK
    ensures InOrder(Begin(p.r, p.trace).r, Norm(Begin(p.r, p.trace)))
  {
    BeginNorm(p);
    PlaceOfMerge(p.trace);
    assert Unpaused(p) == p;
    hide RegsOk, Norm, Couples;
  }

  lemma FinishInOrder(h: Handler, m: M)
    requires MOk(m) && Transparent(h) && InOrder(m.r, Norm(m))
    ensures Orderly(Snapshot(Finish(h, m).r, Finish(h, m).trace))
  {
    var p := Snapshot(Finish(h, m).r, Finish(h, m).trace);
    FinishNorm(h, m);
    FinishOk(h, m);
    MOkRegs(m);
    PlaceOfMerge(p.trace);
    hide RegsOk, Norm, MOk, Finish, Merge, PlaceOf;
    assert Merge(p.trace) == Norm(m);
    CouplesErrno(m.r, PlaceOf(Norm(m)), p.r.errno);
  }

  lemma StopInOrder(m: M)
    requires InOrder(m.r, Norm(m))
    requires m.r.errno in {OK, Paused} ==> RegsOk(m.r) && m.span.NoSpan? && SpanOk(m.r.state, NoSpan)
    ensures Orderly(Snapshot(m.r, m.trace))
  {
    SnapshotInOrder(Snapshot(m.r, m.trace), m);
    if m.r.errno in {OK, Paused} {
      StopNorm(m);
    }
  }

  lemma InitOrderly()
    ensures Orderly(Init(Request))
  {
  }

  lemma PauseOrderly(p: Snapshot, paused: bool)
    requires Orderly(p) && p.r.errno in {OK, Paused}
    ensures Orderly(SetPaused(p, paused))
  {
    CouplesErrno(p.r, PlaceOf(p.trace), if paused then Paused else OK);
  }

  /** Any sequence of calls, each on an unpaused parser. */
  ghost function Session(p: Snapshot, calls: seq<(Handler, string)>): Snapshot
    decreases |calls|
  {
    if calls == [] then p
    else Session(Call(calls[0].0, Unpaused(p), calls[0].1).p, calls[1..])
  }

  lemma {:induction false} SessionOrderly(p: Snapshot, calls: seq<(Handler, string)>)
    requires Orderly(p) && forall c | c in calls :: Transparent(c.0)
    ensures Orderly(Session(p, calls))
    decreases |calls|
  {
    hide Call, Orderly, Transparent;
    if calls != [] {
      if p.r.errno == Paused {
        PauseOrderly(p, false);
      }
      CallOrderly(calls[0].0, Unpaused(p), calls[0].1);
      SessionOrderly(Call(calls[0].0, Unpaused(p), calls[0].1).p, calls[1..]);
    }
  }

  /** The callbacks of a request parser over its whole life are in order. */
  lemma CallbacksFollowGrammar(calls: seq<(Handler, string)>)
    requires forall c | c in calls :: Transparent(c.0)
    ensures PlaceOf(Session(Init(Request), calls).trace) != Wrong
  {
    InitOrderly();
    SessionOrderly(Init(Request), calls);
    NotWrong(Session(Init(Request), calls).r, Session(Init(Request), calls).trace);
  }

  /** Behind message_complete the parser is ready for a new message or takes no more. It is ready exactly if the
      connection may stay open, which is the rule from version 1.1 on and the exception before, and if the end of the
      message was known without the end of the stream. */
  lemma CompleteThenNewOrDead(r: Regs, ch: char, skip: bool)
    requires RegsOk(r)
    ensures var a := Transition(r, ch, skip);
            a.Go? && a.cb == Notify(OnMessageComplete) ==>
              && (a.r.state.Dead? || a.r.state == if a.r.ptype.Request? then StartReq else StartRes)
              && (!a.r.state.Dead? <==>
                    && (if a.r.major == 0 || a.r.minor == 0 then a.r.flags.keepAlive else !a.r.flags.close)
                    && (a.r.ptype.Request? || a.r.flags.chunked || a.r.clen != NO_LENGTH || a.r.flags.skipBody
                        || 100 <= a.r.status < 200 || a.r.status in {204, 304}))
  {
    match PartOf(r.state)
    case AtBodyStart =>
      var a := BodyStart(r, ch);
      assert a.Go? && a.cb.Notify? ==> a.r == r.(state := NewMessage(r));
    case InBody =>
      assert r.state.MessageDone? ==> PlainBody(r).r == r.(state := NewMessage(r));
    case InVersion => VersionShape(r, ch);
    case WithinUrl => UrlByteShape(r, ch);
    case AroundValue => ValueFirstFrame(r, ch);
    case _ =>
  }

  lemma {:induction false} DeadRun(h: Handler, m: M, data: string, i: nat)
    requires m.r.state.Dead? && m.r.errno == OK && m.span.NoSpan? && i <= |data|
    ensures var o := Run(h, m, data, i);
            && o.m.r == m.r.(errno := o.m.r.errno) && o.m.trace == m.trace && o.m.span.NoSpan?
            && (if o.stopped
                then o.m.r.errno == ClosedConnection && o.at < |data| && data[o.at] != CR && data[o.at] != LF
                else o.m.r.errno == OK)
    decreases |data| - i
  {
    hide Do, Run;
    if i == |data| {
      RunAtEnd(h, m, data);
    } else {
      DeadStep(h, m, data[i]);
      SpecStep(h, m, data, i);
      if data[i] == CR || data[i] == LF {
        DeadRun(h, m.(skip := false, head := m.head.Plus(1)), data, i + 1);
      }
    }
  }

  lemma DeadStep(h: Handler, m: M, ch: char)
    requires m.r.state.Dead? && m.r.errno == OK && m.span.NoSpan?
    ensures Do(h, m, ch) == if ch == CR || ch == LF then Next(m.(skip := false, head := m.head.Plus(1)))
                            else Halt(m.(r := m.r.(errno := ClosedConnection)), false)
  {
  }

  /** After the last message of a connection, or an error, no callback is ever made again. */
  lemma NothingAfterTheEnd(h: Handler, p: Snapshot, data: string)
    requires p.r.state.Dead? || p.r.errno != OK
    ensures var p' := Call(h, p, data).p;
            && p'.trace == p.trace && p'.r == p.r.(errno := p'.r.errno)
            && (p.r.errno != OK ==> p' == p)
            && p'.r.errno in {p.r.errno, ClosedConnection}
  {
    if p.r.errno == OK && data != "" {
      DeadRun(h, Begin(p.r, p.trace), data, 0);
      hide Run;
    }
  }
}
