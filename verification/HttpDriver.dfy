/** Programs that feed a stream to the parser object, and the header size that they must stay below. */
module HttpDriver {
  import opened Bytes
  import opened HttpTypes
  import opened HttpAutomaton
  import opened HttpRun
  import opened HttpInvariant
  import opened HttpSkips
  import opened HttpParser
  import opened HttpStream
  import opened HttpSegments
  import opened HttpSizes

  // ----- a call that ends inside a name or a value has consumed a header byte -----

  lemma InsideEarly(r: Regs, ch: char)
    ensures Starts(r, ch).Go? ==> !Inside(Starts(r, ch).r.state)
    ensures StatusLine(r, ch).Go? ==> !Inside(StatusLine(r, ch).r.state)
    ensures MethodByte(r, ch).Go? ==> !Inside(MethodByte(r, ch).r.state)
    ensures HeadersEnd(r, ch).Go? ==> !Inside(HeadersEnd(r, ch).r.state)
  {
    hide ReviseMethod, MethodString, FirstMethod, UpgradeAsked;
  }

  lemma InsideLines(r: Regs, ch: char)
    ensures PartOf(r.state).InVersion? && Version(r, ch).Go? ==> !Inside(Version(r, ch).r.state)
    ensures PartOf(r.state).WithinUrl? && UrlByte(r, ch).Go? ==> !Inside(UrlByte(r, ch).r.state)
    ensures UrlStart(r, ch).Go? ==> !Inside(UrlStart(r, ch).r.state)
  {
    if PartOf(r.state).InVersion? {
      VersionShape(r, ch);
    } else if PartOf(r.state).WithinUrl? {
      UrlByteShape(r, ch);
    }
    assert !Inside(ParseUrlChar(ReqServerStart, ch)) && !Inside(ParseUrlChar(ReqSpacesBeforeUrl, ch));
    hide Version, UrlByte, ParseUrlChar;
  }

  lemma InsideBodies(r: Regs, ch: char)
    ensures BodyStart(r, ch).Go? ==> !Inside(BodyStart(r, ch).r.state)
    ensures PartOf(r.state).InChunkSize? && ChunkSizes(r, ch).Go? ==> !Inside(ChunkSizes(r, ch).r.state)
    ensures PartOf(r.state).InChunkBody? && ChunkBody(r, ch).Go? ==> !Inside(ChunkBody(r, ch).r.state)
    ensures PartOf(r.state).InBody? && PlainBody(r).Go? ==> !Inside(PlainBody(r).r.state)
  {
    hide ShouldKeepAlive, Unhex, Shifted;
  }

  lemma InsideHeaders(r: Regs, ch: char, skip: bool)
    requires PartOf(r.state).InName? || PartOf(r.state).InValue? || PartOf(r.state).AroundValue?
    ensures ParsingHeader(r.state) && !Resets(r.state, ch)
    ensures var a := Transition(r, ch, skip); a.Go? ==> !a.move.Leave?
  {
    hide ValueNext, FieldNext, FieldFirst, FinishHeader;
    if PartOf(r.state).AroundValue? {
      assert ValueFirst(r, ch).Go? ==> ValueFirst(r, ch).move.Advance?;
      hide ValueFirst;
    }
  }

  /** A byte that leads into a name or a value is a byte of the headers. */
  lemma InsideFrom(r: Regs, ch: char, skip: bool)
    ensures var a := Transition(r, ch, skip);
            a.Go? && Inside(a.r.state) ==> ParsingHeader(r.state) && !Resets(r.state, ch) && !a.move.Leave?
  {
    hide Starts, Version, StatusLine, MethodByte, UrlStart, UrlByte, Names, Values, ValueEdges, HeadersEnd, BodyStart,
      ChunkSizes, ChunkBody, PlainBody, Inside, ParsingHeader, Resets;
    InsideEarly(r, ch);
    InsideLines(r, ch);
    InsideBodies(r, ch);
    if PartOf(r.state).InName? || PartOf(r.state).InValue? || PartOf(r.state).AroundValue? {
      InsideHeaders(r, ch, skip);
    }
  }

  lemma InsideStep(h: Handler, m: M, ch: char)
    requires MOk(m)
    ensures var s := Do(h, m, ch);
            Inside(s.m.r.state) && s.m.r.errno == OK && !s.Again? ==> s.Next? && s.m.head.bytes > 0
  {
    HeadsAfter(h, m, ch);
    InsideFrom(m.r, ch, m.skip);
    TransitionOk(m, ch);
    var a := Transition(m.r, ch, m.skip);
    hide Transition, MOk, RegsOk, MarksOk, Fire, Inside, ParsingHeader, Resets;
    if a.Go? {
      FireHead(h, MovedTo(m, a.r, a.mark, ch), a.cb, ch);
    }
  }

  lemma {:induction false} InsideRun(h: Handler, m: M, data: string, i: nat)
    requires MOk(m) && i < |data|
    ensures var o := Run(h, m, data, i); o.m.r.errno == OK && Inside(o.m.r.state) ==> o.m.head.bytes > 0
    decreases |data| - i, Rank(m.r.state)
  {
    hide MOk, Do, Run, Inside;
    InsideStep(h, m, data[i]);
    DoOk(h, m, data[i]);
    SpecStep(h, m, data, i);
    match Do(h, m, data[i])
    case Next(m') =>
      if i + 1 == |data| {
        RunAtEnd(h, m', data);
        NotPaused(m');
      } else {
        InsideRun(h, m', data, i + 1);
      }
    case Again(m') => InsideRun(h, m', data, i);
    case Halt(_, _) =>
  }

  /** The same for a whole call. */
  lemma InsideCall(h: Handler, p: Snapshot, slice: string)
    requires Resumable(p) && slice != ""
    ensures var c := Call(h, p, slice); c.p.r.errno == OK && Inside(c.p.r.state) ==> Last(h, p, slice).head.bytes > 0
  {
    hide MOk, Run, Begin, Resumable, Inside;
    var m := Begin(p.r, p.trace);
    BeginNorm(p);
    NoErrorYet(p);
    CallIsRun(h, p, slice);
    InsideRun(h, m, slice, 0);
    RunOk(h, m, slice, 0);
    var o := Run(h, m, slice, 0);
    FinishHead(h, o.m);
    if !o.stopped {
      NotPaused(o.m);
    }
  }

  // ----- feeding a stream to the parser object -----

  /** The headers have room: either they are smaller than the limit by one byte for each cut and each call, or
      callbacks do not pause and the headers have at most half as many bytes as the limit; then the number of calls
      does not matter. */
  ghost predicate Roomy(hdr: nat, cuts: nat, t: nat, feeds: seq<Feed>) {
    || t + cuts + |feeds| <= MAX_HEADER_SIZE
    || (2 * t + 1 <= MAX_HEADER_SIZE && cuts <= hdr && forall f | f in feeds :: Ordinary(f.h))
  }

  /** The parser has `pos` bytes of a stream behind it, and headers of at most `t` bytes before it. */
  ghost predicate Going(p: Snapshot, data: string, pos: nat, hdr: nat, t: nat) {
    && pos <= |data| && Resumable(p)
    && !Concealed(AbsOfSnapshot(p), data, pos, false) && !Upgraded(ARun(AbsOfSnapshot(p), data, pos))
    && Measure(AbsOfSnapshot(p), data, pos, Width(hdr, false)).top <= t
  }

  /** What a call does, when it does not overflow. */
  lemma GoesOn(h: Handler, p: Snapshot, data: string, pos: nat, n: nat, hdr: nat, cuts: nat, t: nat)
    requires Going(p, data, pos, hdr, t) && Transparent(h) && 0 < n && pos + n <= |data|
    ensures hdr <= t && Resumable(p) && p.r.errno == OK
    ensures var c, d := Call(h, p, data[pos..pos + n]), Last(h, p, data[pos..pos + n]).head;
            && c.used <= n && d.Size(hdr, cuts) <= t + cuts + 1
            && (Unpaused(c.p).r.errno == OK ==> Going(Unpaused(c.p), data, pos + c.used, WidthOf(d, hdr).n, t))
  {
    hide ARun, Concealed, Measure, Resumable, Call, Last, Transparent, AbsOfSnapshot;
    NoErrorYet(p);
    CallSim(h, p, data, pos, n);
    CallMeasure(h, p, data, pos, n, hdr, cuts, t);
  }

  /** Callbacks that do not pause leave no more cuts than header bytes. */
  lemma FewCuts(h: Handler, p: Snapshot, slice: string, hdr: nat, cuts: nat)
    requires Resumable(p) && slice != "" && Ordinary(h) && cuts <= hdr
    ensures var c, d := Call(h, p, slice), Last(h, p, slice).head;
            c.p.r.errno == OK ==>
              (if d.restarted then 0 else cuts) + 1 - Slack(c.p.r.state, OK) <= (if d.restarted then 0 else hdr)
                + d.bytes
  {
    InsideCall(h, p, slice);
    hide Call, Last, Resumable, Ordinary;
  }

  /** The largest header that is still to come. */
  ghost function Ahead(p: Snapshot, data: string, pos: nat, hdr: nat): nat
    requires pos <= |data|
  {
    Measure(AbsOfSnapshot(p), data, pos, Width(hdr, false)).top
  }

  /** What callbacks that do not pause leave behind. */
  lemma OrdinaryCall(h: Handler, p: Snapshot, data: string, pos: nat, n: nat, hdr: nat, cuts: nat, t: nat)
    requires Going(p, data, pos, hdr, t) && Ordinary(h) && 0 < n && pos + n <= |data|
    ensures var c, d := Call(h, p, data[pos..pos + n]), Last(h, p, data[pos..pos + n]).head;
            && c.used <= n && c.p.r.errno != Paused && Unpaused(c.p) == c.p
            && (c.p.r.errno == OK ==>
                  && Ahead(p, data, pos, hdr) <= Max(d.Height(hdr), Ahead(c.p, data, pos + c.used, WidthOf(d, hdr).n))
                  && (cuts <= hdr ==>
                        (if d.restarted then 0 else cuts) + 1 - Slack(c.p.r.state, OK) <= WidthOf(d, hdr).n))
  {
    hide Call, Last, Ordinary, Measure, ARun, Concealed, Resumable;
    CallAccounted(h, p, data, pos, n, hdr);
    if cuts <= hdr {
      FewCuts(h, p, data[pos..pos + n], hdr, cuts);
    }
  }

  /** One call, after which a paused parser is unpaused. */
  method ExecuteUnpaused(p: Parser, h: Handler, slice: string) returns (used: nat)
    requires p.Valid() && p.errno == OK && 0 < |slice| < TWO_32 - MAX_HEADER_SIZE
    modifies p
    ensures p.Valid() && p.errno != Paused
    ensures var c, d := Call(h, old(p.View()), slice), Last(h, old(p.View()), slice).head;
            if p.errno == HeaderOverflow then d.Size(old(p.hdr), old(p.cuts)) > MAX_HEADER_SIZE
            else
              && used == c.used && p.trace == c.p.trace && p.errno == Unpaused(c.p).r.errno
              && (p.errno == OK ==>
                    && p.View() == Unpaused(c.p) && p.hdr == WidthOf(d, old(p.hdr)).n
                    && p.cuts == (if d.restarted then 0 else old(p.cuts)) + 1 - Slack(c.p.r.state, c.p.r.errno)
                    && (c.p.r.errno == OK && !old(p.paused) ==> !p.paused && d.Height(old(p.hdr)) <= MAX_HEADER_SIZE))
  {
    hide Call, Last, Head.Size, Head.Height, p.Valid;
    used := p.Execute(h, slice);
    if p.errno == Paused {
      p.Pause(false);
    }
  }

  /** One call of a program, on the parser object. */
  method FeedOne(p: Parser, h: Handler, data: string, pos: nat, n: nat, ghost t: nat) returns (used: nat)
    requires p.Valid() && Going(p.View(), data, pos, p.hdr, t) && Transparent(h)
    requires 0 < n < TWO_32 - MAX_HEADER_SIZE && pos + n <= |data|
    modifies p
    ensures p.Valid() && p.errno != Paused
    ensures p.errno == HeaderOverflow ==> t + old(p.cuts) + 1 > MAX_HEADER_SIZE
    ensures p.errno != HeaderOverflow ==>
              var c := Call(h, old(p.View()), data[pos..pos + n]);
              && used == c.used <= n && p.trace == c.p.trace && p.errno == Unpaused(c.p).r.errno
              && (p.errno == OK ==> p.View() == Unpaused(c.p))
    ensures p.errno == OK ==> Going(p.View(), data, pos + used, p.hdr, t) && p.cuts <= old(p.cuts) + 1
    ensures p.errno == OK && Ordinary(h) && old(p.cuts) <= old(p.hdr) ==> p.cuts <= p.hdr
    ensures p.errno == OK && Ordinary(h) && !old(p.paused) ==>
              !p.paused && old(Ahead(p.View(), data, pos, p.hdr)) <= Max(MAX_HEADER_SIZE,
                  Ahead(p.View(), data, pos + used, p.hdr))
  {
    hide Call, Last, Transparent, Ordinary, Going, Slack, p.Valid, Ahead, Head.Size, Head.Height, WidthOf, Unpaused;
    GoesOn(h, p.View(), data, pos, n, p.hdr, p.cuts, t);
    if Ordinary(h) {
      OrdinaryCall(h, p.View(), data, pos, n, p.hdr, p.cuts, t);
    }
    used := ExecuteUnpaused(p, h, data[pos..pos + n]);
  }

  /** The parser after some feeds of a program; after an error the registers no longer matter. */
  ghost predicate SameAs(p: Snapshot, pos: nat, q: (Snapshot, nat)) {
    pos == q.1 && p.trace == q.0.trace && p.r.errno == q.0.r.errno && (p.r.errno == OK ==> p == q.0)
  }

  lemma NothingFed(p: Snapshot, data: string, pos: nat)
    requires pos <= |data|
    ensures Drive(p, data, pos, []) == (p, pos)
  {
  }

  /** One feed of a program, and the rest. */
  lemma FeedFirst(p: Snapshot, data: string, pos: nat, feeds: seq<Feed>)
    requires pos <= |data| && feeds != [] && p.r.errno == OK
    ensures var n := Piece(feeds[0], data, pos);
            Drive(p, data, pos, feeds) ==
            if n == 0 then Drive(p, data, pos, feeds[1..])
            else var c := Call(feeds[0].h, p, data[pos..pos + n]); Drive(Unpaused(c.p), data, pos + c.used, feeds[1..])
  {
    hide Call;
  }

  /** A parser with an error is fed nothing more. */
  lemma FedNoMore(p: Snapshot, data: string, pos: nat, feeds: seq<Feed>)
    requires pos <= |data| && p.r.errno != OK
    ensures Drive(p, data, pos, feeds) == (p, pos)
  {
  }

  function Piece(f: Feed, data: string, pos: nat): nat
    requires pos <= |data|
  {
    if f.n <= |data| - pos then f.n else |data| - pos
  }

  ghost predicate AllOrdinary(feeds: seq<Feed>) {
    forall f | f in feeds :: Ordinary(f.h)
  }

  /** Where a program stands in a stream: `feeds` are still to come, `t` is the largest header, and `q` is where it is
      to end. `room` says that the headers have room, and `clean` that no pause has lost a byte. */
  ghost predicate Along(p: Snapshot, hdr: nat, cuts: nat, paused: bool, data: string, pos: nat, feeds: seq<Feed>,
                        t: nat,
                        q: (Snapshot, nat), room: bool, clean: bool)
  {
    && pos <= |data| && p.r.errno != Paused
    && (p.r.errno == OK ==>
          && Going(p, data, pos, hdr, t) && (room ==> Roomy(hdr, cuts, t, feeds)) && q == Drive(p, data, pos, feeds)
          && (clean ==> !paused && t <= Max(MAX_HEADER_SIZE, Ahead(p, data, pos, hdr))))
    && (p.r.errno == HeaderOverflow ==> !room)
    && (p.r.errno !in {OK, HeaderOverflow} ==> SameAs(p, pos, q))
  }

  lemma AlongStart(p: Snapshot, hdr: nat, cuts: nat, paused: bool, data: string, feeds: seq<Feed>, t: nat,
                   q: (Snapshot, nat),
                   room: bool, clean: bool)
    requires Going(p, data, 0, hdr, t) && t == Ahead(p, data, 0, hdr) && q == Drive(p, data, 0, feeds)
    requires (room ==> Roomy(hdr, cuts, t, feeds)) && (clean ==> !paused)
    ensures Along(p, hdr, cuts, paused, data, 0, feeds, t, q, room, clean)
  {
    hide Resumable, ARun, Concealed, Measure, Ahead, Drive, Roomy;
    NoErrorYet(p);
  }

  lemma AlongEnd(p: Snapshot, hdr: nat, cuts: nat, paused: bool, data: string, pos: nat, feeds: seq<Feed>, t: nat,
                 q: (Snapshot, nat), room: bool, clean: bool)
    requires Along(p, hdr, cuts, paused, data, pos, feeds, t, q, room, clean) && (p.r.errno == OK ==> feeds == [])
    requires p.r.errno == OK && !paused ==> hdr <= MAX_HEADER_SIZE
    ensures p.r.errno != Paused && (room ==> p.r.errno != HeaderOverflow)
            && (p.r.errno != HeaderOverflow ==> SameAs(p, pos, q))
    ensures p.r.errno == OK && pos == |data| && clean ==> t <= MAX_HEADER_SIZE
  {
    hide Going, Ahead, Roomy;
    if p.r.errno == OK {
      NothingFed(p, data, pos);
      if pos == |data| {
        NothingAhead(p, data, hdr);
      }
    }
  }

  /** The next feed of a program. */
  method FeedNext(p: Parser, data: string, pos: nat, feeds: seq<Feed>, ghost t: nat, ghost q: (Snapshot, nat),
                  ghost room: bool,
                  ghost clean: bool)
    returns (pos': nat)
    requires p.Valid() && p.errno == OK && feeds != []
    requires Along(p.View(), p.hdr, p.cuts, p.paused, data, pos, feeds, t, q, room, clean)
    requires Transparent(feeds[0].h) && feeds[0].n < TWO_32 - MAX_HEADER_SIZE && (clean ==> Ordinary(feeds[0].h))
    modifies p
    ensures p.Valid() && Along(p.View(), p.hdr, p.cuts, p.paused, data, pos', feeds[1..], t, q, room, clean)
  {
    hide Call, Transparent, Ordinary, Drive, p.Valid, Ahead, Roomy, Going;
    var n := Piece(feeds[0], data, pos);
    FeedFirst(p.View(), data, pos, feeds);
    if room {
      HasRoom(p.View(), data, pos, p.hdr, p.cuts, t, feeds);
    }
    pos' := pos;
    if n > 0 {
      ghost var c := Call(feeds[0].h, p.View(), data[pos..pos + n]);
      var used := FeedOne(p, feeds[0].h, data, pos, n, t);
      if p.errno != HeaderOverflow {
        pos' := pos + used;
        if p.errno != OK {
          FedNoMore(Unpaused(c.p), data, pos', feeds[1..]);
        }
      }
    }
  }

  lemma StartsGoing(p: Snapshot, data: string, hdr: nat)
    requires Resumable(p) && !Concealed(AbsOfSnapshot(p), data, 0, false) && !Upgraded(ARun(AbsOfSnapshot(p), data, 0))
    ensures Going(p, data, 0, hdr, Ahead(p, data, 0, hdr))
  {
    hide Resumable, Concealed, ARun, Measure;
  }

  lemma NothingAhead(p: Snapshot, data: string, hdr: nat)
    ensures Ahead(p, data, |data|, hdr) == hdr
  {
    hide Measure;
    MeasureEnd(AbsOfSnapshot(p), data, Width(hdr, false));
  }

  lemma HasRoom(p: Snapshot, data: string, pos: nat, hdr: nat, cuts: nat, t: nat, feeds: seq<Feed>)
    requires Going(p, data, pos, hdr, t) && Roomy(hdr, cuts, t, feeds) && feeds != []
    ensures t + cuts + 1 <= MAX_HEADER_SIZE
    ensures Roomy(hdr, cuts, t, feeds[1..])
    ensures forall hdr': nat, cuts': nat ::
              cuts' <= cuts + 1 && (Ordinary(feeds[0].h) && cuts <= hdr ==> cuts' <= hdr') ==>
                Roomy(hdr', cuts', t, feeds[1..])
  {
    hide Concealed, ARun, Resumable, Ordinary, Measure;
  }

  /** A program that feeds a stream to the parser object piece by piece, and goes on where a callback has paused it.
      Unless a header is found to be too large it does what `Drive` says. If the headers have room, none is; and if
      callbacks do not pause, no stream with a larger header than the limit is read to its end. */
  method FeedAll(p: Parser, data: string, feeds: seq<Feed>) returns (pos: nat)
    requires p.Valid() && Resumable(p.View())
    requires forall f | f in feeds :: Transparent(f.h) && f.n < TWO_32 - MAX_HEADER_SIZE
    requires !Concealed(AbsOfSnapshot(p.View()), data, 0, false) && !Upgraded(ARun(AbsOfSnapshot(p.View()), data, 0))
    modifies p
    ensures p.Valid() && p.errno != Paused
    ensures old(Roomy(p.hdr, p.cuts, Ahead(p.View(), data, 0, p.hdr), feeds)) ==> p.errno != HeaderOverflow
    ensures p.errno != HeaderOverflow ==> SameAs(p.View(), pos, Drive(old(p.View()), data, 0, feeds))
    ensures p.errno == OK && pos == |data| && AllOrdinary(feeds) && !old(p.paused) ==>
              old(Ahead(p.View(), data, 0, p.hdr)) <= MAX_HEADER_SIZE
  {
    hide Transparent, Drive, Resumable, ARun, Concealed, p.Valid, Ahead, Roomy, Along, AbsOfSnapshot;
    ghost var t := Ahead(p.View(), data, 0, p.hdr);
    ghost var q := Drive(p.View(), data, 0, feeds);
    ghost var room, clean := Roomy(p.hdr, p.cuts, t, feeds), AllOrdinary(feeds) && !p.paused;
    StartsGoing(p.View(), data, p.hdr);
    AlongStart(p.View(), p.hdr, p.cuts, p.paused, data, feeds, t, q, room, clean);
    pos := 0;
    var k := 0;
    assert feeds[0..] == feeds;
    while k < |feeds| && p.errno == OK
      invariant k <= |feeds| && p.Valid() && Along(p.View(), p.hdr, p.cuts, p.paused, data, pos, feeds[k..], t, q,
                                                   room, clean)
    {
      assert feeds[k..][0] == feeds[k] && feeds[k..][1..] == feeds[k + 1..];
      pos := FeedNext(p, data, pos, feeds[k..], t, q, room, clean);
      k := k + 1;
    }
    if p.errno == OK {
      assert feeds[k..] == [];
      p.StillLow();
    }
    AlongEnd(p.View(), p.hdr, p.cuts, p.paused, data, pos, feeds[k..], t, q, room, clean);
  }
}
