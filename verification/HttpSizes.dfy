/** How large the headers of a stream become: the bytes that the parser counts against its limit. */
module HttpSizes {
  import opened Bytes
  import opened HttpTypes
  import opened HttpAutomaton
  import opened HttpRun
  import opened HttpInvariant
  import opened HttpSkips
  import opened HttpParser
  import opened HttpStream
  import opened HttpSegments
  import opened HttpFeed

  /** `n` header bytes have been consumed since the count was last reset; `begun` says that the current byte will be
      one more. */
  datatype Width = Width(n: nat, begun: bool) {
    /** A byte is read in state `s`. */
    function Read(s: State, ch: char): Width {
      if Resets(s, ch) then Width(0, false) else Width(n, begun || ParsingHeader(s))
    }

    /** The current byte is consumed. */
    function Consumed(): Width {
      Width(if begun then n + 1 else n, false)
    }

    /** The current byte is left to the next call. */
    function Left(): Width {
      Width(n, false)
    }

    predicate Below(w: Width) {
      n <= w.n && (begun ==> w.begun)
    }
  }

  /** The header bytes counted at the end of a stream, and the most that are counted anywhere in it. */
  datatype Extent = Extent(end: nat, top: nat)

  /** The stream `data[i..]`, with `w` counted before. */
  ghost function Measure(s: Abs, data: string, i: nat, w: Width): (e: Extent)
    requires i <= |data|
    ensures w.n <= e.top && e.end <= e.top
    decreases |data| - i, Rank(s.r.state)
  {
    if i == |data| then Extent(w.n, w.n)
    else
      var w' := w.Read(s.r.state, data[i]);
      var e := match ADo(s, data[i])
        case ANext(s') => Measure(s', data, i + 1, w'.Consumed())
        case AAgain(s') => Measure(s', data, i, w')
        case AHalt(_, used) => Halted(if used then w'.Consumed() else w');
      Extent(e.end, Max(w.n, e.top))
  }

  function Halted(w: Width): Extent {
    Extent(w.n, w.n)
  }

  function Topped(n: nat, e: Extent): Extent {
    Extent(e.end, Max(n, e.top))
  }

  lemma MeasureStep(s: Abs, data: string, i: nat, w: Width)
    requires i < |data|
    ensures var w' := w.Read(s.r.state, data[i]);
            Measure(s, data, i, w) ==
            Topped(w.n, match ADo(s, data[i])
                        case ANext(s') => Measure(s', data, i + 1, w'.Consumed())
                        case AAgain(s') => Measure(s', data, i, w')
                        case AHalt(_, used) => Halted(if used then w'.Consumed() else w'))
  {
    hide ADo, ParsingHeader, Resets;
  }

  lemma MeasureEnd(s: Abs, data: string, w: Width)
    ensures Measure(s, data, |data|, w) == Halted(w)
  {
    hide ADo;
  }

  lemma {:induction false} MeasureShift(s: Abs, a: string, b: string, j: nat, w: Width)
    requires j <= |b|
    ensures Measure(s, a + b, |a| + j, w) == Measure(s, b, j, w)
    decreases |b| - j, Rank(s.r.state)
  {
    hide ADo, Measure, ParsingHeader, Resets;
    if j == |b| {
      MeasureEnd(s, a + b, w);
      MeasureEnd(s, b, w);
    } else {
      MeasureStep(s, a + b, |a| + j, w);
      MeasureStep(s, b, j, w);
      assert (a + b)[|a| + j] == b[j];
      var w' := w.Read(s.r.state, b[j]);
      match ADo(s, b[j])
      case ANext(s') => MeasureShift(s', a, b, j + 1, w'.Consumed());
      case AAgain(s') => MeasureShift(s', a, b, j, w');
      case AHalt(_, _) =>
    }
  }

  /** A text that does not stop the automaton, and another behind it. */
  lemma {:induction false} MeasureSplit(s: Abs, a: string, b: string, i: nat, w: Width)
    requires i <= |a| && !ARun(s, a, i).stopped && (i == |a| ==> !w.begun)
    ensures var e := Measure(s, a, i, w);
            Measure(s, a + b, i, w) == Topped(e.top, Measure(ARun(s, a, i).s, a + b, |a|, Width(e.end, false)))
    decreases |a| - i, Rank(s.r.state)
  {
    hide ADo, ARun, Measure, ParsingHeader, Resets;
    if i == |a| {
      AtEnd(s, a);
      MeasureEnd(s, a, w);
    } else {
      AStepRun(s, a, i);
      MeasureStep(s, a + b, i, w);
      MeasureStep(s, a, i, w);
      assert (a + b)[i] == a[i];
      var w' := w.Read(s.r.state, a[i]);
      match ADo(s, a[i])
      case ANext(s') => MeasureSplit(s', a, b, i + 1, w'.Consumed());
      case AAgain(s') => MeasureSplit(s', a, b, i, w');
      case AHalt(_, _) =>
    }
  }

  /** Who has counted less has never counted more. */
  lemma {:induction false} MeasureBelow(s: Abs, data: string, i: nat, v: Width, w: Width)
    requires i <= |data| && v.Below(w)
    ensures Measure(s, data, i, v).top <= Measure(s, data, i, w).top
    decreases |data| - i, Rank(s.r.state)
  {
    hide ADo, Measure, ParsingHeader, Resets;
    if i == |data| {
      MeasureEnd(s, data, v);
      MeasureEnd(s, data, w);
    } else {
      MeasureStep(s, data, i, v);
      MeasureStep(s, data, i, w);
      var v', w' := v.Read(s.r.state, data[i]), w.Read(s.r.state, data[i]);
      match ADo(s, data[i])
      case ANext(s') => MeasureBelow(s', data, i + 1, v'.Consumed(), w'.Consumed());
      case AAgain(s') => MeasureBelow(s', data, i, v', w');
      case AHalt(_, _) =>
    }
  }

  /** A byte counts once at most. */
  lemma {:induction false} MeasureRises(s: Abs, data: string, i: nat, w: Width)
    requires i <= |data|
    ensures Measure(s, data, i, w).top <= w.n + |data| - i
    decreases |data| - i, Rank(s.r.state)
  {
    hide ADo, Measure, ParsingHeader, Resets;
    if i == |data| {
      MeasureEnd(s, data, w);
    } else {
      MeasureStep(s, data, i, w);
      var w' := w.Read(s.r.state, data[i]);
      match ADo(s, data[i])
      case ANext(s') => MeasureRises(s', data, i + 1, w'.Consumed());
      case AAgain(s') => MeasureRises(s', data, i, w');
      case AHalt(_, _) =>
    }
  }

  // ----- the headers of a call -----

  /** What the headers of a call come to, if `hdr` bytes of them were consumed before it. */
  function WidthOf(d: Head, hdr: nat): Width {
    Width((if d.restarted then 0 else hdr) + d.bytes, d.begun)
  }

  /** The headers of the call have never been larger than `t`. */
  predicate Within(d: Head, hdr: nat, t: nat) {
    if d.restarted then hdr + d.first <= t && d.most <= t && d.bytes <= t else hdr + d.bytes <= t
  }

  lemma WithinSize(d: Head, hdr: nat, cuts: nat, t: nat)
    requires Within(d, hdr, t)
    ensures d.Size(hdr, cuts) <= t + cuts + 1
  {
  }

  lemma WidthMoves(d: Head, s: State, ch: char, hdr: nat, t: nat)
    ensures WidthOf(d.Read(s, ch), hdr) == WidthOf(d, hdr).Read(s, ch)
    ensures WidthOf(d.Consumed(), hdr) == WidthOf(d, hdr).Consumed()
    ensures WidthOf(d.Left(), hdr) == WidthOf(d, hdr).Left()
    ensures Within(d, hdr, t) ==> Within(d.Read(s, ch), hdr, t) && Within(d.Left(), hdr, t)
    ensures Within(d, hdr, t) && WidthOf(d, hdr).Consumed().n <= t ==> Within(d.Consumed(), hdr, t)
  {
    hide ParsingHeader, Resets;
  }

  /** A byte that fails is not counted, and transparent callbacks do not fail. */
  lemma FailureHead(h: Handler, m: M, ch: char)
    requires MOk(m) && Transparent(h) && Do(h, m, ch).Halt? && Do(h, m, ch).m.r.errno !in {OK, Paused}
    ensures Do(h, m, ch).m.head == m.head
  {
    TransitionOk(m, ch);
    var a := Transition(m.r, ch, m.skip);
    hide Transition, MOk, RegsOk, MarksOk, Fire, Transparent;
    if a.Go? {
      FireTransparent(h, MovedTo(m, a.r, a.mark, ch), a.cb, ch);
    }
  }

  lemma FireTransparent(h: Handler, m: M, cb: Callback, ch: char)
    requires Transparent(h)
    ensures Fire(h, m, cb, ch).r.errno in {m.r.errno, OK, Paused}
  {
  }

  /** What the header bytes of a pass come to, whether it goes on or stops. */
  lemma PassWidth(h: Handler, m: M, ch: char, hdr: nat, t: nat)
    requires MOk(m) && Transparent(h) && Within(m.head, hdr, t)
    ensures var w, s := WidthOf(m.head, hdr).Read(m.r.state, ch), Do(h, m, ch);
            if s.Halt? && s.m.r.errno !in {OK, Paused} then s.m.head == m.head
            else
              var w' := if s.Again? then w else if s.Halt? && !s.used then w.Left() else w.Consumed();
              WidthOf(s.m.head, hdr) == w' && (w'.n <= t ==> Within(s.m.head, hdr, t))
  {
    hide MOk, Do, Transparent, ParsingHeader, Resets, Within, WidthOf;
    var d := m.head.Read(m.r.state, ch);
    HeadsAfter(h, m, ch);
    WidthMoves(m.head, m.r.state, ch, hdr, t);
    WidthMoves(d, m.r.state, ch, hdr, t);
    if Do(h, m, ch).Halt? && Do(h, m, ch).m.r.errno !in {OK, Paused} {
      FailureHead(h, m, ch);
    }
  }

  /** The stream that a paused call leaves behind. */
  function Resumed(m: M): Abs {
    Abs(m.r.(errno := OK), Norm(m))
  }

  /** The byte has not been consumed. */
  predicate Stays(s: Step) {
    s.Again? || (s.Halt? && !s.used)
  }

  lemma ResumedIs(m: M)
    ensures m.r.errno == OK ==> Resumed(m) == AbsOf(m)
  {
  }

  lemma NotPausedYet(s: Step)
    ensures !s.Halt? && MOk(s.m) ==> s.m.r.errno == OK
  {
  }

  lemma WidthEnds(d: Head, hdr: nat)
    ensures d.begun == WidthOf(d, hdr).begun
    ensures !d.begun ==> WidthOf(d, hdr) == Width(WidthOf(d, hdr).n, false)
  {
  }

  /** One pass of a call, and the measure of the stream. */
  lemma PassMeasure(h: Handler, m: M, data: string, j: nat, hdr: nat, t: nat)
    requires MOk(m) && Transparent(h) && j < |data| && !Hidden(m, data[j]) && Within(m.head, hdr, t)
    requires Measure(AbsOf(m), data, j, WidthOf(m.head, hdr)).top <= t && !Upgraded(ARun(AbsOf(m), data, j))
    ensures var s := Do(h, m, data[j]);
            && Within(s.m.head, hdr, t) && (s.Halt? ==> s.m.r.errno != OK)
            && (!s.Halt? || s.m.r.errno == Paused ==>
                  && Measure(Resumed(s.m), data, if Stays(s) then j else j + 1, WidthOf(s.m.head, hdr)).top <= t
                  && (s.Again? || !s.m.head.begun))
            && (!s.Halt? ==> Resumed(s.m) == AbsOf(s.m))
  {
    hide MOk, Do, Transparent, ADo, ARun, Measure, Hidden, Norm, Within, WidthOf, ParsingHeader, Resets;
    var ch := data[j];
    WidthEnds(Do(h, m, ch).m.head, hdr);
    StepSim(h, m, ch);
    AStepRun(AbsOf(m), data, j);
    SameRegs(m);
    MeasureStep(AbsOf(m), data, j, WidthOf(m.head, hdr));
    PassWidth(h, m, ch, hdr, t);
    var w := WidthOf(m.head, hdr).Read(m.r.state, ch);
    var s := Do(h, m, ch);
    ResumedIs(s.m);
    NotPausedYet(s);
    if s.Halt? && s.m.r.errno == Paused && !s.used {
      MeasureBelow(Resumed(s.m), data, j, w.Left(), w);
    }
  }

  /** What a call that has come to `o` leaves of the stream has no larger headers than `t`. */
  ghost predicate Leftover(o: Outcome, data: string, pos: nat, hdr: nat, t: nat)
    requires pos + o.at <= |data|
  {
    && Within(o.m.head, hdr, t)
    && (o.m.r.errno in {OK, Paused} ==> Measure(Resumed(o.m), data, pos + o.at,
                                                Width(WidthOf(o.m.head, hdr).n, false)).top <= t)
  }

  /** A call within a stream whose headers stay below `t`; the byte at hand is `data[j]`. */
  ghost predicate Narrow(m: M, data: string, j: nat, hdr: nat, t: nat)
    requires j <= |data|
  {
    && !Concealed(AbsOf(m), data, j, m.skip) && !Upgraded(ARun(AbsOf(m), data, j))
    && Within(m.head, hdr, t) && Measure(AbsOf(m), data, j, WidthOf(m.head, hdr)).top <= t
  }

  lemma NarrowPass(h: Handler, m: M, data: string, pos: nat, n: nat, i: nat, hdr: nat, t: nat)
    requires MOk(m) && Transparent(h) && i < n && pos + n <= |data| && Narrow(m, data, pos + i, hdr, t)
    ensures var s := Do(h, m, data[pos + i]);
            && (s.Next? ==> MOk(s.m) && Narrow(s.m, data, pos + (i + 1), hdr, t))
            && (s.Again? ==> MOk(s.m) && Narrow(s.m, data, pos + i, hdr, t))
            && (s.Next? ==> !s.m.head.begun)
            && (s.Halt? ==> Leftover(Outcome(s.m, if s.used then i + 1 else i, true), data, pos, hdr, t))
  {
    hide MOk, Do, Transparent, Run, ARun, AbsOf, Upgraded, Concealed, Measure, Within, WidthOf, Hidden, Reaches, Plain,
         Resumed, IllegalValue;
    PassSim(h, m, data, pos, n, i);
    HiddenStops(m, data, pos + i);
    PassMeasure(h, m, data, pos + i, hdr, t);
    WidthEnds(Do(h, m, data[pos + i]).m.head, hdr);
  }

  lemma NarrowEnd(m: M, data: string, pos: nat, n: nat, hdr: nat, t: nat)
    requires MOk(m) && pos + n <= |data| && Narrow(m, data, pos + n, hdr, t) && !m.head.begun
    ensures Leftover(Outcome(m, n, false), data, pos, hdr, t)
  {
    hide MOk, ARun, Measure, Within, WidthOf, Concealed;
    ResumedIs(m);
    WidthEnds(m.head, hdr);
    NotPaused(m);
  }

  lemma {:induction false} RunMeasure(h: Handler, m: M, data: string, pos: nat, n: nat, i: nat, hdr: nat, t: nat)
    requires MOk(m) && Transparent(h) && i <= n && pos + n <= |data| && (i == n ==> !m.head.begun)
    requires Narrow(m, data, pos + i, hdr, t)
    ensures Leftover(Run(h, m, data[pos..pos + n], i), data, pos, hdr, t)
    decreases n - i, Rank(m.r.state)
  {
    hide MOk, Do, Transparent, Run, Narrow, Leftover, Rank;
    var slice := data[pos..pos + n];
    assert |slice| == n && (i < n ==> slice[i] == data[pos + i]);
    if i == n {
      RunAtEnd(h, m, slice);
      NarrowEnd(m, data, pos, n, hdr, t);
    } else {
      SpecStep(h, m, slice, i);
      NarrowPass(h, m, data, pos, n, i, hdr, t);
      var s := Do(h, m, data[pos + i]);
      if s.Next? {
        RunMeasure(h, s.m, data, pos, n, i + 1, hdr, t);
      } else if s.Again? {
        RunMeasure(h, s.m, data, pos, n, i, hdr, t);
      }
    }
  }

  /** One call with a piece of such a stream: its headers stay below `t`, and so does what it leaves of the stream. */
  lemma CallMeasure(h: Handler, p: Snapshot, data: string, pos: nat, n: nat, hdr: nat, cuts: nat, t: nat)
    requires Resumable(p) && Transparent(h) && 0 < n && pos + n <= |data|
    requires !Concealed(AbsOfSnapshot(p), data, pos, false) && !Upgraded(ARun(AbsOfSnapshot(p), data, pos))
    requires Measure(AbsOfSnapshot(p), data, pos, Width(hdr, false)).top <= t
    ensures var c, d := Call(h, p, data[pos..pos + n]), Last(h, p, data[pos..pos + n]).head;
            && c.used <= n && d.Size(hdr, cuts) <= t + cuts + 1
            && (Unpaused(c.p).r.errno == OK ==>
                  Measure(AbsOfSnapshot(Unpaused(c.p)), data, pos + c.used, Width(WidthOf(d, hdr).n, false)).top <= t)
  {
    hide Run, ARun, MOk, RegsOk, SpanOk, Norm, Transparent, Resumable, Begin, Concealed, Measure;
    var m := Begin(p.r, p.trace);
    var slice := data[pos..pos + n];
    BeginNorm(p);
    NoErrorYet(p);
    BeginHead(p, hdr, t);
    RunMeasure(h, m, data, pos, n, 0, hdr, t);
    RunOk(h, m, slice, 0);
    CallIsRun(h, p, slice);
    var o := Run(h, m, slice, 0);
    if !o.stopped {
      FinishNorm(h, o.m);
      FinishHead(h, o.m);
    } else if o.m.r.errno in {OK, Paused} {
      StopNorm(o.m);
    }
    WithinSize(Last(h, p, slice).head, hdr, cuts, t);
  }

  lemma BeginHead(p: Snapshot, hdr: nat, t: nat)
    ensures Begin(p.r, p.trace).head == NO_HEAD && WidthOf(NO_HEAD, hdr) == Width(hdr, false)
    ensures hdr <= t ==> Within(NO_HEAD, hdr, t)
  {
  }

  lemma FinishHead(h: Handler, m: M)
    ensures Finish(h, m).head == m.head && Finish(h, m).r.state == m.r.state
  {
  }

  // ----- what a call has been able to count -----

  lemma WidthIsHeight(d: Head, hdr: nat)
    ensures WidthOf(d, hdr).n <= d.Height(hdr)
  {
  }

  lemma DoHeight(h: Handler, m: M, ch: char, hdr: nat)
    ensures m.head.Height(hdr) <= Do(h, m, ch).m.head.Height(hdr)
  {
    var a := Transition(m.r, ch, m.skip);
    hide Transition, Fire, ParsingHeader, Resets;
    if a.Go? {
      FireHead(h, MovedTo(m, a.r, a.mark, ch), a.cb, ch);
    }
  }

  lemma {:induction false} RunHeight(h: Handler, m: M, data: string, i: nat, hdr: nat)
    requires i <= |data|
    ensures m.head.Height(hdr) <= Run(h, m, data, i).m.head.Height(hdr)
    decreases |data| - i, Rank(m.r.state)
  {
    hide Do, Run;
    if i < |data| {
      DoHeight(h, m, data[i], hdr);
      SpecStep(h, m, data, i);
      match Do(h, m, data[i])
      case Next(m') => RunHeight(h, m', data, i + 1, hdr);
      case Again(m') => RunHeight(h, m', data, i, hdr);
      case Halt(_, _) =>
    } else {
      RunAtEnd(h, m, data);
    }
  }

  /** A byte at which the automaton fails is not consumed. */
  lemma FailureStays(s: Abs, ch: char)
    requires ADo(s, ch).AHalt? && ADo(s, ch).s.r.errno != OK && s.r.errno == OK
    requires var a := Transition(s.r, ch, false); a.Go? ==> a.r.errno == OK
    ensures !ADo(s, ch).used
  {
    hide Transition, Log;
  }

  lemma ActFails(m: M, ch: char)
    requires MOk(m) && !Hidden(m, ch)
    ensures var a := Transition(m.r, ch, false); a.Go? ==> a.r.errno == OK
  {
    HiddenOrSame(m, ch);
    TransitionOk(m, ch);
    hide Transition, MOk, RegsOk, MarksOk, Hidden;
  }

  /** The stream neither conceals a byte nor changes the protocol. */
  ghost predicate Clear(m: M, data: string, j: nat)
    requires j <= |data|
  {
    !Concealed(AbsOf(m), data, j, m.skip) && !Upgraded(ARun(AbsOf(m), data, j))
  }

  /** The largest header of the stream from here on. */
  ghost function Top(m: M, data: string, j: nat, hdr: nat): nat
    requires j <= |data|
  {
    Measure(AbsOf(m), data, j, WidthOf(m.head, hdr)).top
  }

  /** How much of the headers of the stream the call has counted, and how much is left. */
  ghost predicate Accounted(t: nat, o: Outcome, data: string, pos: nat, hdr: nat)
    requires pos + o.at <= |data|
  {
    t <= Max(o.m.head.Height(hdr),
             if o.m.r.errno == OK then Measure(Resumed(o.m), data, pos + o.at,
                                               Width(WidthOf(o.m.head, hdr).n, false)).top else 0)
  }

  /** The last byte of a call that fails. */
  lemma HaltAccounted(h: Handler, m: M, data: string, pos: nat, n: nat, i: nat, hdr: nat)
    requires MOk(m) && Ordinary(h) && i < n && pos + n <= |data| && Do(h, m, data[pos + i]).Halt?
             && Clear(m, data, pos + i)
    ensures var s := Do(h, m, data[pos + i]);
            Accounted(Top(m, data, pos + i, hdr), Outcome(s.m, if s.used then i + 1 else i, true), data, pos, hdr)
  {
    hide MOk, Do, Transparent, Ordinary, ADo, ARun, Concealed, Hidden, Norm, IllegalValue, WidthOf, ParsingHeader,
         Measure;
    var j, ch := pos + i, data[pos + i];
    OrdinaryIsTransparent(h);
    HiddenStops(m, data, j);
    StepSim(h, m, ch);
    AStepRun(AbsOf(m), data, j);
    SameRegs(m);
    NeverPausedStep(h, m, ch);
    NotPaused(m);
    ActFails(m, ch);
    SameRegs(Do(h, m, ch).m);
    FailureStays(AbsOf(m), ch);
    MeasureStep(AbsOf(m), data, j, WidthOf(m.head, hdr));
    WidthIsHeight(m.head, hdr);
    DoHeight(h, m, ch, hdr);
  }

  lemma NeverPausedStep(h: Handler, m: M, ch: char)
    requires MOk(m) && Ordinary(h)
    ensures Do(h, m, ch).m.r.errno != Paused
  {
    TransitionOk(m, ch);
    NotPaused(m);
    OrdinaryNeverPauses(h);
    DoKeepsGoing(h, m, ch);
  }

  lemma AccountedMore(t: nat, t': nat, n: nat, o: Outcome, data: string, pos: nat, hdr: nat)
    requires pos + o.at <= |data| && Accounted(t', o, data, pos, hdr) && n <= o.m.head.Height(hdr) && t == Max(n, t')
    ensures Accounted(t, o, data, pos, hdr)
  {
    hide Measure, WidthOf;
  }

  lemma AccountedEnd(m: M, data: string, pos: nat, n: nat, hdr: nat)
    requires MOk(m) && pos + n <= |data| && !m.head.begun
    ensures Accounted(Top(m, data, pos + n, hdr), Outcome(m, n, false), data, pos, hdr)
  {
    hide MOk, Measure, WidthOf;
    ResumedIs(m);
    WidthEnds(m.head, hdr);
    NotPaused(m);
  }

  /** What a pass that goes on has counted. */
  lemma PassAccounted(h: Handler, m: M, data: string, pos: nat, n: nat, i: nat, hdr: nat)
    requires MOk(m) && Ordinary(h) && i < n && pos + n <= |data| && Clear(m, data, pos + i)
    ensures var s := Do(h, m, data[pos + i]);
            var j := if s.Next? then pos + i + 1 else pos + i;
            !s.Halt? ==>
              && MOk(s.m) && Clear(s.m, data, j) && (s.Next? ==> !s.m.head.begun)
              && Top(m, data, pos + i, hdr) == Max(WidthOf(m.head, hdr).n, Top(s.m, data, j, hdr))
              && WidthOf(m.head, hdr).n <= m.head.Height(hdr)
  {
    hide MOk, Do, Transparent, Ordinary, ADo, AbsOf, Upgraded, ARun, Concealed, Measure, WidthOf, Hidden,
         ParsingHeader, Resets,
      Reaches, Plain;
    var j, ch := pos + i, data[pos + i];
    OrdinaryIsTransparent(h);
    PassSim(h, m, data, pos, n, i);
    HiddenStops(m, data, j);
    StepSim(h, m, ch);
    SameRegs(m);
    MeasureStep(AbsOf(m), data, j, WidthOf(m.head, hdr));
    WidthIsHeight(m.head, hdr);
    PassWidth(h, m, ch, hdr, m.head.Height(hdr));
    WidthEnds(Do(h, m, ch).m.head, hdr);
  }

  /** A pass that does not end the call hands the account on from what follows it. */
  lemma OnwardAccounted(h: Handler, m: M, data: string, pos: nat, n: nat, slice: string, i: nat, hdr: nat)
    requires MOk(m) && Ordinary(h) && i < n && pos + n <= |data| && Clear(m, data, pos + i)
    requires slice == data[pos..pos + n] && !Do(h, m, data[pos + i]).Halt?
    requires var s := Do(h, m, data[pos + i]);
             var k := if s.Next? then i + 1 else i;
             Accounted(Top(s.m, data, pos + k, hdr), Run(h, s.m, slice, k), data, pos, hdr)
    ensures Accounted(Top(m, data, pos + i, hdr), Run(h, m, slice, i), data, pos, hdr)
  {
    hide MOk, Do, Ordinary, Run, Clear, WidthOf, Accounted, Top, Rank;
    var s := Do(h, m, data[pos + i]);
    var k := if s.Next? then i + 1 else i;
    SpecStep(h, m, slice, i);
    RunHeight(h, m, slice, i, hdr);
    PassAccounted(h, m, data, pos, n, i, hdr);
    AccountedMore(Top(m, data, pos + i, hdr), Top(s.m, data, pos + k, hdr), WidthOf(m.head, hdr).n, Run(h, m, slice, i),
                  data, pos, hdr);
  }

  lemma {:induction false} RunAccounted(h: Handler, m: M, data: string, pos: nat, n: nat, i: nat, hdr: nat)
    requires MOk(m) && Ordinary(h) && i <= n && pos + n <= |data| && (i == n ==> !m.head.begun)
             && Clear(m, data, pos + i)
    ensures Accounted(Top(m, data, pos + i, hdr), Run(h, m, data[pos..pos + n], i), data, pos, hdr)
    decreases n - i, Rank(m.r.state)
  {
    hide MOk, Do, Ordinary, Run, Clear, WidthOf, Accounted, Top, Rank;
    var slice := data[pos..pos + n];
    if i == n {
      RunAtEnd(h, m, slice);
      AccountedEnd(m, data, pos, n, hdr);
    } else {
      var s := Do(h, m, data[pos + i]);
      PassAccounted(h, m, data, pos, n, i, hdr);
      if s.Halt? {
        SpecStep(h, m, slice, i);
        HaltAccounted(h, m, data, pos, n, i, hdr);
      } else {
        RunAccounted(h, s.m, data, pos, n, if s.Next? then i + 1 else i, hdr);
        OnwardAccounted(h, m, data, pos, n, slice, i, hdr);
      }
    }
  }

  /** One call with callbacks that do not pause: the largest header of the stream has been counted, or is still to
      come. */
  lemma CallAccounted(h: Handler, p: Snapshot, data: string, pos: nat, n: nat, hdr: nat)
    requires Resumable(p) && Ordinary(h) && 0 < n && pos + n <= |data|
    requires !Concealed(AbsOfSnapshot(p), data, pos, false) && !Upgraded(ARun(AbsOfSnapshot(p), data, pos))
    ensures var c, d := Call(h, p, data[pos..pos + n]), Last(h, p, data[pos..pos + n]).head;
            && c.used <= n && c.p.r.errno != Paused
            && (c.p.r.errno == OK ==>
                  Measure(AbsOfSnapshot(p), data, pos, Width(hdr, false)).top
                  <= Max(d.Height(hdr), Measure(AbsOfSnapshot(c.p), data, pos + c.used,
                                                Width(WidthOf(d, hdr).n, false)).top))
  {
    hide Run, ARun, MOk, RegsOk, SpanOk, Norm, Transparent, Ordinary, Resumable, Begin, Concealed, Measure, WidthOf;
    var m := Begin(p.r, p.trace);
    var slice := data[pos..pos + n];
    BeginNorm(p);
    NoErrorYet(p);
    BeginHead(p, hdr, hdr);
    RunAccounted(h, m, data, pos, n, 0, hdr);
    RunKeepsGoing(h, m, slice, 0);
    RunOk(h, m, slice, 0);
    CallIsRun(h, p, slice);
    OrdinaryIsTransparent(h);
    var o := Run(h, m, slice, 0);
    if !o.stopped {
      NotPaused(o.m);
      FinishNorm(h, o.m);
      FinishHead(h, o.m);
      FinishKeepsGoing(h, o.m);
    } else if o.m.r.errno == OK {
      StopNorm(o.m);
    }
  }

  lemma FinishKeepsGoing(h: Handler, m: M)
    requires Ordinary(h) && m.r.errno == OK
    ensures Finish(h, m).r.errno == OK
  {
  }
}
