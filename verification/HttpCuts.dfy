/** Exactly when the outcome of a stream depends on how it is cut into calls. */
module HttpCuts {
  import opened Bytes
  import opened HttpTypes
  import opened HttpAutomaton
  import opened HttpRun
  import opened HttpInvariant
  import opened HttpSkips
  import opened HttpStream
  import opened HttpSegments
  import opened HttpFeed
  import opened HttpNames
  import opened HttpHeaders
  import opened HttpStart

  // ----- the byte that a call conceals -----

  lemma GoesOn(h: Handler, m: M, ch: char)
    requires MOk(m) && Ordinary(h)
    ensures Transparent(h) && Do(h, m, ch).m.r.errno != Paused
  {
    TransitionOk(m, ch);
    NotPaused(m);
    OrdinaryNeverPauses(h);
    DoKeepsGoing(h, m, ch);
  }

  /** A call that has come to the concealed byte passes over it. */
  lemma PassesOver(h: Handler, m: M, ch: char)
    requires Ordinary(h) && MOk(m) && Hidden(m, ch)
    ensures Do(h, m, ch).Next? && MOk(Do(h, m, ch).m)
  {
    SearchStep(h, m, ch);
    hide Do, MOk;
  }

  lemma AtHalt(m: M, data: string, i: nat)
    requires MOk(m) && i < |data| && Concealed(AbsOf(m), data, i, m.skip) && ADo(AbsOf(m), data[i]).AHalt?
    ensures Hidden(m, data[i])
  {
    ConcealedStep(AbsOf(m), data, i, m.skip);
    hide ADo, MOk, Norm;
  }

  /** The concealed byte is `data[k]`. */
  ghost predicate Ahead(m: M, data: string, j: nat, k: nat)
    requires j <= |data|
  {
    Concealed(AbsOf(m), data, j, m.skip) && ARun(AbsOf(m), data, j).at == k
  }

  /** On the way to the concealed byte the call follows the stream. */
  lemma OnTheWay(h: Handler, m: M, data: string, j: nat, k: nat)
    requires Ordinary(h) && MOk(m) && j < |data| && Ahead(m, data, j, k) && !Hidden(m, data[j])
    ensures var s := Do(h, m, data[j]);
            var j' := if s.Next? then j + 1 else j;
            !s.Halt? && MOk(s.m) && Ahead(s.m, data, j', k) && j' <= k
  {
    hide MOk, Do, ARun, ADo, Concealed, Hidden, AbsOf, Transparent, Searching, Ordinary, Norm, Illegal;
    var ch := data[j];
    AStepRun(AbsOf(m), data, j);
    GoesOn(h, m, ch);
    ConcealedStep(AbsOf(m), data, j, m.skip);
    StepSim(h, m, ch);
    SameRegs(m);
    SameRegs(Do(h, m, ch).m);
    if Do(h, m, ch).Halt? {
      AtHalt(m, data, j);
    }
  }

  lemma ConcealedLast(h: Handler, m: M, slice: string, i: nat)
    requires Ordinary(h) && MOk(m) && i + 1 == |slice| && Hidden(m, slice[i])
    ensures var o := Run(h, m, slice, i); !o.stopped && MOk(o.m)
  {
    hide MOk, Do, Run, Hidden, Ordinary;
    SpecStep(h, m, slice, i);
    PassesOver(h, m, slice[i]);
    RunAtEnd(h, Do(h, m, slice[i]).m, slice);
  }

  /** A call that takes the concealed byte as its last goes on to its end. */
  lemma {:induction false} ConcealedRun(h: Handler, m: M, data: string, pos: nat, n: nat, i: nat)
    requires Ordinary(h) && MOk(m) && i < n && pos + n <= |data|
    requires Ahead(m, data, pos + i, pos + n - 1)
    ensures var o := Run(h, m, data[pos..pos + n], i); !o.stopped && MOk(o.m)
    decreases n - i, Rank(m.r.state)
  {
    hide MOk, Do, Run, Hidden, Ahead, Ordinary, Rank, Apply, Transition;
    var slice := data[pos..pos + n];
    if Hidden(m, data[pos + i]) {
      StopsHere(m, data, pos + i, pos + n - 1);
      ConcealedLast(h, m, slice, i);
    } else {
      SpecStep(h, m, slice, i);
      OnTheWay(h, m, data, pos + i, pos + n - 1);
      match Do(h, m, data[pos + i])
      case Next(m') => ConcealedRun(h, m', data, pos, n, i + 1);
      case Again(m') => ConcealedRun(h, m', data, pos, n, i);
      case Halt(_, _) =>
    }
  }

  lemma StopsHere(m: M, data: string, j: nat, k: nat)
    requires MOk(m) && j < |data| && Hidden(m, data[j]) && Ahead(m, data, j, k)
    ensures j == k
  {
    HiddenStops(m, data, j);
    AStepRun(AbsOf(m), data, j);
    hide MOk, ARun, ADo, Norm, Hidden;
  }

  lemma NotYet(m: M, data: string, j: nat, k: nat)
    requires MOk(m) && j < k && j < |data| && Ahead(m, data, j, k)
    ensures !Hidden(m, data[j])
  {
    hide MOk, Hidden, Ahead;
    if Hidden(m, data[j]) {
      StopsHere(m, data, j, k);
    }
  }

  /** A call that ends in front of the concealed byte goes on to its end. */
  lemma {:induction false} CutRun(h: Handler, m: M, data: string, pos: nat, n: nat, i: nat)
    requires Ordinary(h) && MOk(m) && i <= n && pos + n <= |data|
    requires Ahead(m, data, pos + i, pos + n)
    ensures var o := Run(h, m, data[pos..pos + n], i); !o.stopped && MOk(o.m) && Ahead(o.m, data, pos + n, pos + n)
    decreases n - i, Rank(m.r.state)
  {
    hide MOk, Do, Run, Hidden, Ahead, Ordinary, Rank, Apply, Transition;
    var slice := data[pos..pos + n];
    if i == n {
      RunAtEnd(h, m, slice);
    } else {
      SpecStep(h, m, slice, i);
      NotYet(m, data, pos + i, pos + n);
      OnTheWay(h, m, data, pos + i, pos + n);
      match Do(h, m, data[pos + i])
      case Next(m') => CutRun(h, m', data, pos, n, i + 1);
      case Again(m') => CutRun(h, m', data, pos, n, i);
      case Halt(_, _) =>
    }
  }

  /** A call that begins with the concealed byte fails. */
  lemma {:induction false} CutStop(h: Handler, m: M, data: string, k: nat)
    requires Ordinary(h) && MOk(m) && !m.skip && k < |data|
    requires Concealed(AbsOf(m), data, k, true) && ARun(AbsOf(m), data, k).at == k
    ensures var o := Run(h, m, data[k..k + 1], 0); o.stopped && o.at == 0 && o.m.r.errno == InvalidHeaderToken
    decreases Rank(m.r.state)
  {
    hide MOk, Do, Run, ARun, ADo, Concealed, Hidden, AbsOf, Transparent, Searching, Ordinary, Norm;
    var slice, ch := data[k..k + 1], data[k];
    SpecStep(h, m, slice, 0);
    AStepRun(AbsOf(m), data, k);
    GoesOn(h, m, ch);
    SkipStaysOff(h, m, ch);
    ConcealedStep(AbsOf(m), data, k, true);
    StepSim(h, m, ch);
    IllegalFails(AbsOf(m), ch);
    match Do(h, m, ch)
    case Next(_) =>
    case Again(m') => ConcealedMore(AbsOf(m'), data, k, true); CutStop(h, m', data, k);
    case Halt(m', _) => SameRegs(m');
  }

  lemma SilentIsTransparent()
    ensures Transparent(SILENT) && Ordinary(SILENT)
  {
  }

  lemma FinishSilent(m: M)
    requires MOk(m)
    ensures Finish(SILENT, m).r.errno == OK && Transparent(SILENT)
  {
    NotPaused(m);
    hide MOk;
  }

  /** The parser is on the course of the stream, whatever has been fed to it so far. */
  ghost predicate StaysOn(p: Snapshot, data: string, pos: nat, feeds: seq<Feed>)
    requires pos <= |data|
  {
    var (p', pos') := Drive(p, data, pos, feeds);
    pos' <= |data| && OnCourse(p', data, pos', ARun(AbsOfSnapshot(p), data, pos))
  }

  /** Without a cut the concealed byte, `data[k]`, is passed over, and the parser is off the course of the stream. */
  lemma ConcealedPasses(p: Snapshot, data: string, pos: nat, k: nat)
    requires Resumable(p) && pos <= k < |data| && Concealed(AbsOfSnapshot(p), data, pos, false)
    requires ARun(AbsOfSnapshot(p), data, pos).at == k
    ensures var (p', pos') := Drive(p, data, pos, [Feed(SILENT, k + 1 - pos)]); p'.r.errno == OK && pos' == k + 1
    ensures !StaysOn(p, data, pos, [Feed(SILENT, k + 1 - pos)])
  {
    hide MOk, Run, ARun, Concealed, Resumable, RegsOk, SpanOk, Norm, Begin, Transparent;
    var n := k + 1 - pos;
    var m := Begin(p.r, p.trace);
    BeginNorm(p);
    NoErrorYet(p);
    SilentIsTransparent();
    ConcealedRun(SILENT, m, data, pos, n, 0);
    var c := Run(SILENT, m, data[pos..pos + n], 0);
    FinishSilent(c.m);
    CallIsRun(SILENT, p, data[pos..pos + n]);
    assert [Feed(SILENT, n)][1..] == [];
  }

  /** A cut in front of the concealed byte makes it an error. */
  lemma CutFails(p: Snapshot, data: string, pos: nat, k: nat)
    requires Resumable(p) && pos < k < |data| && Concealed(AbsOfSnapshot(p), data, pos, false)
    requires ARun(AbsOfSnapshot(p), data, pos).at == k
    ensures var (p', pos') := Drive(p, data, pos, [Feed(SILENT, k - pos), Feed(SILENT, 1)]);
            p'.r.errno == InvalidHeaderToken && pos' == k
  {
    hide MOk, Run, ARun, Concealed, Resumable, RegsOk, SpanOk, Norm, Begin, Transparent, Merge;
    var m := Begin(p.r, p.trace);
    BeginNorm(p);
    NoErrorYet(p);
    SilentIsTransparent();
    CutRun(SILENT, m, data, pos, k - pos, 0);
    assert pos + (k - pos) == k;
    var c := Run(SILENT, m, data[pos..k], 0);
    FinishSilent(c.m);
    FinishNorm(SILENT, c.m);
    CallIsRun(SILENT, p, data[pos..k]);
    var p1 := Call(SILENT, p, data[pos..k]).p;
    assert Call(SILENT, p, data[pos..k]).used == k - pos && p1.r.errno == OK;
    var m1 := Begin(p1.r, p1.trace);
    BeginNorm(p1);
    assert AbsOf(m1) == AbsOf(c.m);
    MaybeMore(AbsOf(c.m), data, k, c.m.skip);
    CutStop(SILENT, m1, data, k);
    CallIsRun(SILENT, p1, data[k..k + 1]);
    TwoFeeds(p, data, pos, k);
  }

  lemma TwoFeeds(p: Snapshot, data: string, pos: nat, k: nat)
    requires pos < k < |data| && p.r.errno == OK
    requires var c := Call(SILENT, p, data[pos..k]); c.used == k - pos && c.p.r.errno == OK
    ensures var c := Call(SILENT, Call(SILENT, p, data[pos..k]).p, data[k..k + 1]);
            Drive(p, data, pos, [Feed(SILENT, k - pos), Feed(SILENT, 1)]) == (Unpaused(c.p), k + c.used)
  {
    hide Call;
    var feeds := [Feed(SILENT, k - pos), Feed(SILENT, 1)];
    assert feeds[1..] == [Feed(SILENT, 1)] && feeds[1..][1..] == [];
    assert pos + (k - pos) == k;
    var p1 := Call(SILENT, p, data[pos..k]).p;
    assert Drive(p, data, pos, feeds) == Drive(p1, data, k, feeds[1..]);
    var c := Call(SILENT, p1, data[k..k + 1]);
    assert Drive(p1, data, k, feeds[1..]) == Drive(Unpaused(c.p), data, k + c.used, feeds[1..][1..]);
  }

  lemma MaybeMore(s: Abs, data: string, k: nat, prev: bool)
    requires k <= |data| && Concealed(s, data, k, prev)
    ensures Concealed(s, data, k, true)
  {
    ConcealedMore(s, data, k, true);
    hide Concealed;
  }

  /** Main result: the cuts and the pauses make no difference exactly if the stream does not fail at an illegal byte
      of a header value directly behind a byte read in a value of no interest. */
  lemma SegmentationExactly(p: Snapshot, data: string, pos: nat)
    requires Resumable(p) && pos <= |data| && !Upgraded(ARun(AbsOfSnapshot(p), data, pos))
    ensures !Concealed(AbsOfSnapshot(p), data, pos, false) <==>
              forall feeds: seq<Feed> | forall f | f in feeds :: Transparent(f.h) :: StaysOn(p, data, pos, feeds)
  {
    hide Resumable, Concealed, ARun, Drive, OnCourse, Upgraded, Transparent;
    if Concealed(AbsOfSnapshot(p), data, pos, false) {
      ConcealedStops(AbsOfSnapshot(p), data, pos, false);
      var k := ARun(AbsOfSnapshot(p), data, pos).at;
      ConcealedPasses(p, data, pos, k);
      var feeds := [Feed(SILENT, k + 1 - pos)];
      SilentIsTransparent();
      assert !StaysOn(p, data, pos, feeds) && forall f | f in feeds :: Transparent(f.h);
    } else {
      forall feeds: seq<Feed> | forall f | f in feeds :: Transparent(f.h)
        ensures StaysOn(p, data, pos, feeds)
      {
        DriveFollowsStream(p, data, pos, feeds);
      }
    }
  }

  // ----- streams without such a byte -----

  /** Every byte that is read in a header value is legal there. */
  ghost predicate AllLegal(s: Abs, data: string, i: nat)
    requires i <= |data|
    decreases |data| - i, Rank(s.r.state)
  {
    i < |data| ==>
      && !Illegal(s.r, data[i])
      && match ADo(s, data[i])
         case ANext(s') => AllLegal(s', data, i + 1)
         case AAgain(s') => AllLegal(s', data, i)
         case AHalt(_, _) => true
  }

  lemma {:induction false} LegalIsPlain(s: Abs, data: string, i: nat, prev: bool)
    requires i <= |data| && AllLegal(s, data, i)
    ensures !Concealed(s, data, i, prev)
    decreases |data| - i, Rank(s.r.state)
  {
    hide ADo, Illegal, Concealed, Searching;
    if i < |data| {
      ConcealedStep(s, data, i, prev);
      match ADo(s, data[i])
      case ANext(s') => LegalIsPlain(s', data, i + 1, Searching(s.r, s'.r));
      case AAgain(s') => LegalIsPlain(s', data, i, false);
      case AHalt(_, _) =>
    } else {
      NotConcealedAtEnd(s, data, prev);
    }
  }

  lemma ValueNextLenient(r: Regs, ch: char)
    ensures ValueNext(r, ch).lenient == r.lenient
    ensures ValueFirst(r, ch).Go? ==> ValueFirst(r, ch).r.lenient == r.lenient && ValueFirst(r, ch).r.errno == r.errno
  {
    hide Lower, Shifted, MatchWord, IsToken;
  }

  lemma LenientInHeaders(r: Regs, ch: char)
    requires r.errno == OK
    ensures PartOf(r.state).InName? ==> KeepsMode(r, Names(r, ch), ch)
    ensures PartOf(r.state).InValue? ==> KeepsMode(r, Values(r, ch, false), ch)
    ensures PartOf(r.state).AroundValue? ==> KeepsMode(r, ValueEdges(r, ch), ch)
    ensures PartOf(r.state).AtHeadersEnd? ==> KeepsMode(r, HeadersEnd(r, ch), ch)
  {
    hide ValueNext, ValueFirst, FieldFirst, FieldNext, FinishHeader, IsHeaderChar, IsToken;
    ValueNextLenient(r, ch);
    ValueFirstError(r, ch);
  }

  /** The mode is kept, and an illegal byte of a value is the only reason to fail with that error in a value. */
  predicate KeepsMode(r: Regs, a: Act, ch: char) {
    if a.Go? then a.r.lenient == r.lenient && a.r.errno == OK
    else a.error == InvalidHeaderToken && a.r.state.HeaderValue? ==> Illegal(r, ch)
  }

  lemma LenientElsewhere(r: Regs, ch: char)
    requires r.errno == OK
    ensures PartOf(r.state).InStart? ==> KeepsMode(r, Starts(r, ch), ch)
    ensures PartOf(r.state).InStatus? ==> KeepsMode(r, StatusLine(r, ch), ch)
    ensures PartOf(r.state).InMethod? ==> KeepsMode(r, MethodByte(r, ch), ch)
    ensures PartOf(r.state).BeforeUrl? ==> KeepsMode(r, UrlStart(r, ch), ch)
    ensures PartOf(r.state).AtBodyStart? ==> KeepsMode(r, BodyStart(r, ch), ch)
    ensures PartOf(r.state).InChunkSize? ==> KeepsMode(r, ChunkSizes(r, ch), ch)
    ensures PartOf(r.state).InChunkBody? ==> KeepsMode(r, ChunkBody(r, ch), ch)
    ensures PartOf(r.state).InBody? ==> KeepsMode(r, PlainBody(r), ch)
  {
    hide ReviseMethod, MethodString, FirstMethod, ParseUrlChar, NewMessage, Unhex, Shifted, Illegal;
  }

  lemma LenientInLines(r: Regs, ch: char)
    requires r.errno == OK
    ensures PartOf(r.state).InVersion? ==> KeepsMode(r, Version(r, ch), ch)
    ensures PartOf(r.state).WithinUrl? ==> KeepsMode(r, UrlByte(r, ch), ch)
  {
    hide ParseUrlChar, Illegal;
    if PartOf(r.state).InVersion? {
      VersionShape(r, ch);
    } else if PartOf(r.state).WithinUrl? {
      UrlByteShape(r, ch);
    }
  }

  lemma LenientStays(r: Regs, ch: char)
    requires r.errno == OK
    ensures KeepsMode(r, Transition(r, ch, false), ch)
  {
    hide KeepsMode, Starts, Version, StatusLine, MethodByte, UrlStart, UrlByte, Names, Values, ValueEdges, HeadersEnd,
         BodyStart,
      ChunkSizes, ChunkBody, PlainBody;
    LenientInHeaders(r, ch);
    LenientElsewhere(r, ch);
    LenientInLines(r, ch);
  }

  lemma ValueFirstError(r: Regs, ch: char)
    ensures ValueFirst(r, ch).Fail? ==> ValueFirst(r, ch).error != InvalidHeaderToken
  {
    hide Lower, IsToken;
  }

  lemma StepLegal(s: Abs, ch: char)
    requires s.r.errno == OK && !Illegal(s.r, ch)
    ensures match ADo(s, ch)
            case ANext(s') => s'.r.errno == OK && s'.r.lenient == s.r.lenient
            case AAgain(s') => s'.r.errno == OK && s'.r.lenient == s.r.lenient
            case AHalt(s', _) => !(s'.r.errno == InvalidHeaderToken && s'.r.state.HeaderValue?)
  {
    LenientStays(s.r, ch);
    hide Transition, Illegal, Log;
  }

  /** Such a stream does not fail at an illegal byte of a value. */
  lemma {:induction false} LegalNeverFails(s: Abs, data: string, i: nat)
    requires i <= |data| && s.r.errno == OK && AllLegal(s, data, i)
    ensures !IllegalValue(ARun(s, data, i))
    decreases |data| - i, Rank(s.r.state)
  {
    hide ADo, Illegal, ARun;
    if i < |data| {
      StepLegal(s, data[i]);
      AStepRun(s, data, i);
      match ADo(s, data[i])
      case ANext(s') => LegalNeverFails(s', data, i + 1);
      case AAgain(s') => LegalNeverFails(s', data, i);
      case AHalt(_, _) =>
    } else {
      AtEnd(s, data);
    }
  }

  /** What a caller can see before the call: in lenient mode every byte is legal, and otherwise it is enough that no
      byte is a control character other than tab, CR and LF. */
  lemma {:induction false} LegalBytes(s: Abs, data: string, i: nat)
    requires i <= |data| && s.r.errno == OK
    requires s.r.lenient || forall k :: i <= k < |data| ==> IsHeaderChar(data[k])
    ensures AllLegal(s, data, i)
    decreases |data| - i, Rank(s.r.state)
  {
    hide ADo, IsHeaderChar;
    if i < |data| {
      StepLegal(s, data[i]);
      match ADo(s, data[i])
      case ANext(s') => LegalBytes(s', data, i + 1);
      case AAgain(s') => LegalBytes(s', data, i);
      case AHalt(_, _) =>
    }
  }

  /** Segmentation for callers: such streams may be cut and paused anywhere. */
  lemma LegalStreams(p: Snapshot, data: string, feeds: seq<Feed>)
    requires Resumable(p) && !Upgraded(ARun(AbsOfSnapshot(p), data, 0))
    requires p.r.lenient || forall k :: 0 <= k < |data| ==> IsHeaderChar(data[k])
    requires forall f | f in feeds :: Transparent(f.h)
    ensures StaysOn(p, data, 0, feeds) && !IllegalValue(ARun(AbsOfSnapshot(p), data, 0))
  {
    hide Resumable, Concealed, ARun, Drive, OnCourse, Upgraded, Transparent, AllLegal, IsHeaderChar, Merge,
         IllegalValue;
    NoErrorYet(p);
    LegalBytes(AbsOfSnapshot(p), data, 0);
    LegalIsPlain(AbsOfSnapshot(p), data, 0, false);
    LegalNeverFails(AbsOfSnapshot(p), data, 0);
    DriveFollowsStream(p, data, 0, feeds);
  }

  // ----- a request that shows the difference -----

  const CONTROL: char := 1 as char

  /** A request line, a header name, and the first byte of its value. */
  const BEGINNING: string := "GET / HTTP/1.1" + CRLF + "X: v"

  /** What a text concealed at its end is, seen from its beginning. */
  lemma {:induction false} ConcealedAlong(s: Abs, a: string, b: string, i: nat, prev: bool)
    requires i <= |a| && !ARun(s, a, i).stopped
    ensures Concealed(ARun(s, a, i).s, a + b, |a|, false) ==> Concealed(s, a + b, i, prev)
    decreases |a| - i, Rank(s.r.state)
  {
    hide ADo, Concealed, ARun, Searching, Illegal;
    if i == |a| {
      AtEnd(s, a);
      ConcealedMore(s, a + b, i, prev);
    } else {
      AStepRun(s, a, i);
      assert (a + b)[i] == a[i];
      ConcealedStep(s, a + b, i, prev);
      match ADo(s, a[i])
      case ANext(s') => ConcealedAlong(s', a, b, i + 1, Searching(s.r, s'.r));
      case AAgain(s') => ConcealedAlong(s', a, b, i, false);
      case AHalt(_, _) =>
    }
  }

  /** A legal byte and an illegal one in a value of no interest. */
  lemma TwoBytes(s: Abs, data: string, i: nat)
    requires s.r.state.HeaderValue? && s.r.hstate.General? && s.r.errno == OK && !s.r.lenient
    requires i + 2 == |data| && data[i] == 'a' && data[i + 1] == CONTROL
    ensures Concealed(s, data, i, false) && ARun(s, data, i).at == i + 1
  {
    NextValueByte(s, 'a');
    var s1 := Abs(s.r, Put(s.log, Data(Value, "a")));
    assert ValueNext(s.r, 'a') == s.r && ADo(s, 'a') == ANext(s1);
    IllegalFails(s1, CONTROL);
    hide ADo, Concealed, ARun, Put, ValueNext;
    ConcealedStep(s, data, i, false);
    ConcealedStep(s1, data, i + 1, true);
    AStepRun(s, data, i);
    AStepRun(s1, data, i + 1);
  }

  /** The value that begins at the end of the beginning is of no interest. */
  lemma ThroughBeginning() returns (s: Abs)
    ensures Through(AbsOfSnapshot(Init(Request)), BEGINNING, s)
    ensures s.r.state.HeaderValue? && s.r.hstate.General? && s.r.errno == OK && !s.r.lenient
  {
    hide Through, MethodString, Recognize, Put, StartLine, GoodStart, AreTokens, Started;
    var start, s0 := Asking(GET, "/"), AbsOfSnapshot(Init(Request));
    GetSlash();
    ThroughStartLine(s0, start, 1, 1);
    var s1 := Started(s0, start, 1, 1);
    StartedLenient(s0);
    NameX();
    ThroughIntro(s1, "X", " ");
    var s2 := Introduced(s1, "X");
    s := ThroughValue(s2, "v");
    assert "X" + ":" + " " == "X: ";
    Then(s1, "X: ", s2, "v", s);
    Then(s0, StartLine(start, 1, 1), s1, "X: " + "v", s);
    assert StartLine(start, 1, 1) + ("X: " + "v") == BEGINNING;
  }

  lemma StartedLenient(s: Abs)
    ensures var s' := Started(s, Asking(GET, "/"), 1, 1);
            s'.r.state.HeaderFieldStart? && s'.r.lenient == s.r.lenient && s'.r.errno == s.r.errno
  {
  }

  lemma GetSlash()
    ensures GoodStart(Asking(GET, "/")) && StartLine(Asking(GET, "/"), 1, 1) == "GET / HTTP/1.1" + CRLF
  {
    assert TargetState(false, "/") == ReqPath;
    assert Protocol(1, 1) == "HTTP/1.1";
  }

  lemma NameX()
    ensures AreTokens("X") && Recognize("X").0.General? && GoodValue("v")
  {
  }

  /** The concealed byte is the last of the text. */
  lemma ConcealedAtTheEnd(s0: Abs, text: string)
    requires s0 == AbsOfSnapshot(Init(Request)) && text == BEGINNING + ['a', CONTROL]
    ensures Concealed(s0, text, 0, false) && ARun(s0, text, 0).at == |text| - 1
  {
    hide Concealed, ARun, AbsOfSnapshot, Init;
    var s := ThroughBeginning();
    TwoBytes(s, text, |BEGINNING|);
    RunSplit(s0, BEGINNING, ['a', CONTROL], 0);
    ConcealedAlong(s0, BEGINNING, ['a', CONTROL], 0, false);
  }

  lemma NewIsResumable(t: ParserType)
    ensures Resumable(Init(t))
  {
  }

  /** Why such a byte must be excluded: a new parser accepts this beginning of a request in one call, and rejects it
      when its last byte comes in a call of its own. */
  lemma HiddenByteDependsOnTheCut()
    ensures var text := BEGINNING + ['a', CONTROL];
            && Drive(Init(Request), text, 0, [Feed(SILENT, |text|)]).0.r.errno == OK
            && Drive(Init(Request), text, 0, [Feed(SILENT, |text| - 1), Feed(SILENT, 1)]).0.r.errno
               == InvalidHeaderToken
  {
    hide Concealed, ARun, Drive, Resumable, AbsOfSnapshot, Init;
    var p, text := Init(Request), BEGINNING + ['a', CONTROL];
    NewIsResumable(Request);
    ConcealedAtTheEnd(AbsOfSnapshot(p), text);
    ConcealedPasses(p, text, 0, |text| - 1);
    CutFails(p, text, 0, |text| - 1);
  }
}
