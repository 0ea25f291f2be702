/** The parser as a function of the byte stream alone: no buffers, no marks, no pauses.
    Every way of cutting the stream into calls and of pausing in callbacks comes down to it. */
module HttpStream {
  import opened Bytes
  import opened HttpTypes
  import opened HttpAutomaton
  import opened HttpRun
  import opened HttpInvariant
  import opened HttpSkips

  /** One more callback in a log in which neighbouring data callbacks of one kind are joined. */
  function Put(log: seq<Event>, e: Event): seq<Event> {
    if e.Data? && log != [] && log[|log| - 1].Data? && log[|log| - 1].kind == e.kind
    then log[..|log| - 1] + [Data(e.kind, log[|log| - 1].bytes + e.bytes)]
    else log + [e]
  }

  function Merge(trace: seq<Event>): seq<Event> {
    if trace == [] then [] else Put(Merge(trace[..|trace| - 1]), trace[|trace| - 1])
  }

  lemma MergeOne(trace: seq<Event>, e: Event)
    ensures Merge(trace + [e]) == Put(Merge(trace), e)
  {
    assert (trace + [e])[..|trace|] == trace;
  }

  lemma PutTwice(log: seq<Event>, k: DataKind, a: string, b: string)
    ensures Put(Put(log, Data(k, a)), Data(k, b)) == Put(log, Data(k, a + b))
  {
    var n := |log|;
    if n > 0 && log[n - 1].Data? && log[n - 1].kind == k {
      assert (log[n - 1].bytes + a) + b == log[n - 1].bytes + (a + b);
    }
  }

  /** Registers and joined callbacks. */
  datatype Abs = Abs(r: Regs, log: seq<Event>)

  datatype AStep = ANext(s: Abs) | AAgain(s: Abs) | AHalt(s: Abs, used: bool)

  /** The kind of data a consumed byte belongs to. */
  function Growing(s: State, mark: MarkOp): Span {
    match RuleOf(s)
    case Always(k) => Marked(k, "")
    case Sometimes(k) => if mark.Open? then Marked(k, "") else NoSpan
    case Never => NoSpan
  }

  function Log(log: seq<Event>, a: Act, ch: char): seq<Event>
    requires a.Go?
  {
    var started := if a.mark.Open? then Put(log, Data(a.mark.kind, "")) else log;
    match a.cb
    case Notify(n) => Put(started, EventOf(n, a.r))
    case Flush(k, last) => if last then Put(started, Data(k, [ch])) else started
    case Quiet =>
      if a.move.Advance? && Growing(a.r.state, a.mark).Marked?
      then Put(started, Data(Growing(a.r.state, a.mark).kind, [ch]))
      else started
  }

  function AApply(s: Abs, a: Act, ch: char): AStep {
    match a
    case Fail(r, e) => AHalt(Abs(r.(errno := e), s.log), false)
    case Go(r, mark, cb, move) =>
      var s' := Abs(r, Log(s.log, a, ch));
      match move
      case Advance => ANext(s')
      case Reread => AAgain(s')
      case Leave => AHalt(s', true)
  }

  /** One pass through the switch; every byte of a value is looked at. */
  function ADo(s: Abs, ch: char): (x: AStep)
    ensures x.AAgain? ==> Rank(x.s.r.state) < Rank(s.r.state)
  {
    RereadLowersRank(s.r, ch, false);
    AApply(s, Transition(s.r, ch, false), ch)
  }

  datatype AOutcome = AOutcome(s: Abs, at: nat, stopped: bool)

  /** The stream `data[i..]`. */
  function ARun(s: Abs, data: string, i: nat): (o: AOutcome)
    requires i <= |data|
    ensures i <= o.at <= |data|
    ensures !o.stopped ==> o.at == |data|
    decreases |data| - i, Rank(s.r.state)
  {
    if i == |data| then AOutcome(s, i, false)
    else
      match ADo(s, data[i])
      case ANext(s') => ARun(s', data, i + 1)
      case AAgain(s') => ARun(s', data, i)
      case AHalt(s', used) => AOutcome(s', if used then i + 1 else i, true)
  }

  /** What a call in progress has seen of the stream, delivered or not. */
  function Norm(m: M): seq<Event> {
    if m.span.Marked? then Put(Merge(m.trace), Data(m.span.kind, m.span.bytes)) else Merge(m.trace)
  }

  function AbsOf(m: M): Abs {
    Abs(m.r, Norm(m))
  }

  function AbsOfSnapshot(p: Snapshot): Abs {
    Abs(p.r, Merge(p.trace))
  }

  /** Callbacks that may pause the parser and otherwise return 0. */
  ghost predicate Transparent(h: Handler) {
    forall t :: h(t).code == 0
  }

  lemma OpenNorm(m: M, r: Regs, mark: MarkOp, skip: bool, head: Head)
    requires mark.Open? && m.span.Marked? ==> m.span.kind == mark.kind
    ensures Norm(M(r, m.trace, OpenMark(m.span, mark), skip, head)) ==
            if mark.Open? then Put(Norm(m), Data(mark.kind, "")) else Norm(m)
  {
    if mark.Open? && m.span.Marked? {
      PutTwice(Merge(m.trace), m.span.kind, m.span.bytes, "");
      assert m.span.bytes + "" == m.span.bytes;
    }
  }

  lemma ConsumeNorm(m: M, ch: char)
    ensures Norm(Consume(m, ch)) == if m.span.Marked? then Put(Norm(m), Data(m.span.kind, [ch])) else Norm(m)
  {
    if m.span.Marked? {
      PutTwice(Merge(m.trace), m.span.kind, m.span.bytes, [ch]);
    }
  }

  lemma NoteNorm(h: Handler, m: M, n: Note)
    requires m.span.NoSpan?
    ensures Norm(FireNote(h, m, n)) == Put(Norm(m), EventOf(n, m.r))
  {
    MergeOne(m.trace, EventOf(n, m.r));
  }

  lemma DataNorm(h: Handler, m: M, k: DataKind, more: string)
    requires m.span.Marked? && m.span.kind == k
    ensures Norm(FireData(h, m, k, more)) == Put(Norm(m), Data(k, more))
  {
    MergeOne(m.trace, Data(k, m.span.bytes + more));
    PutTwice(Merge(m.trace), k, m.span.bytes, more);
  }

  /** What one pass through the switch of a call means for the stream. `hidden` bytes are
      those the search for the end of a value passes over without looking at them. */
  ghost predicate Hidden(m: M, ch: char) {
    m.skip && ch != CR && ch != LF && !m.r.lenient && !IsHeaderChar(ch)
  }

  /** The step `s` of a call does to the stream what `x` does. */
  ghost predicate Simulates(s: Step, x: AStep, leave: bool) {
    match s
    case Next(m') => x == ANext(AbsOf(m'))
    case Again(m') => x == AAgain(AbsOf(m'))
    case Halt(m', used) =>
      if m'.r.errno == Paused
      then
        var s' := Abs(m'.r.(errno := OK), Norm(m'));
        x == if leave then AHalt(s', true) else if used then ANext(s') else AAgain(s')
      else x == AHalt(AbsOf(m'), used)
  }

  lemma ApplySim(h: Handler, m: M, a: Act, ch: char)
    requires MOk(m) && ActOk(m.r.state, a) && MarksOk(m.r.state, a, m.span) && Transparent(h)
    ensures Simulates(Apply(h, m, a, ch), AApply(AbsOf(m), a, ch), a.Go? && a.move.Leave?)
  {
    hide RegsOk, MOk, SpanOk, Transparent, Norm, MarksOk, ActOk, FireNote, FireData, Log;
    if a.Fail? {
      FailSim(h, m, a, ch);
    } else if a.cb.Quiet? {
      QuietApplySim(h, m, a, ch);
    } else if a.cb.Notify? {
      NoteApplySim(h, m, a, ch);
    } else {
      FlushApplySim(h, m, a, ch);
    }
  }

  lemma FailSim(h: Handler, m: M, a: Act, ch: char)
    requires a.Fail?
    ensures Simulates(Apply(h, m, a, ch), AApply(AbsOf(m), a, ch), false)
  {
  }

  lemma QuietApplySim(h: Handler, m: M, a: Act, ch: char)
    requires MOk(m) && ActOk(m.r.state, a) && MarksOk(m.r.state, a, m.span) && a.Go? && a.cb.Quiet?
    ensures Simulates(Apply(h, m, a, ch), AApply(AbsOf(m), a, ch), a.move.Leave?)
  {
    hide RegsOk, MOk, RuleOf, SpanOk, Growing;
    var m1 := MovedTo(m, a.r, a.mark, ch);
    OpenNorm(m, a.r, a.mark, m1.skip, m1.head);
    QuietSim(h, m, m1, a, ch);
  }

  lemma NoteApplySim(h: Handler, m: M, a: Act, ch: char)
    requires MOk(m) && ActOk(m.r.state, a) && MarksOk(m.r.state, a, m.span) && Transparent(h) && a.Go? && a.cb.Notify?
    ensures Simulates(Apply(h, m, a, ch), AApply(AbsOf(m), a, ch), a.move.Leave?)
  {
    hide RegsOk, MOk, RuleOf, SpanOk, Growing, Transparent, EventOf, Norm, FireNote;
    var m1 := MovedTo(m, a.r, a.mark, ch);
    OpenNorm(m, a.r, a.mark, m1.skip, m1.head);
    NoteNorm(h, m1, a.cb.note);
    NoteSim(h, m1, a.cb.note);
    Uncounted(FireNote(h, m1, a.cb.note));
  }

  lemma FlushApplySim(h: Handler, m: M, a: Act, ch: char)
    requires MOk(m) && ActOk(m.r.state, a) && MarksOk(m.r.state, a, m.span) && Transparent(h) && a.Go? && a.cb.Flush?
    ensures Simulates(Apply(h, m, a, ch), AApply(AbsOf(m), a, ch), a.move.Leave?)
  {
    hide RegsOk, RuleOf, SpanOk, Growing, Transparent, Norm, FireData, Put;
    var m1 := MovedTo(m, a.r, a.mark, ch);
    OpenNorm(m, a.r, a.mark, m1.skip, m1.head);
    FlushSim(h, m1, a.cb.kind, if a.cb.last then [ch] else "");
    Uncounted(FireData(h, m1, a.cb.kind, if a.cb.last then [ch] else ""));
  }

  /** The stream knows nothing of the header bytes. */
  lemma Uncounted(m: M)
    ensures Norm(m.(head := m.head.Left())) == Norm(m.(head := m.head.Consumed())) == Norm(m)
    ensures m.span.NoSpan? ==> forall ch :: Consume(m, ch) == m.(head := m.head.Consumed())
  {
  }

  lemma QuietSim(h: Handler, m: M, m1: M, a: Act, ch: char)
    requires a.Go? && a.cb.Quiet? && MarksOk(m.r.state, a, m.span) && m1.span == OpenMark(m.span, a.mark)
    ensures a.move.Advance? ==>
              Norm(Consume(m1, ch)) == if Growing(a.r.state, a.mark).Marked?
                                       then Put(Norm(m1), Data(Growing(a.r.state, a.mark).kind, [ch])) else Norm(m1)
  {
    ConsumeNorm(m1, ch);
    hide Norm, Put;
  }

  lemma FlushSim(h: Handler, m: M, k: DataKind, more: string)
    requires m.r.errno == OK && Transparent(h)
    requires m.span.Marked? ==> m.span.kind == k
    requires m.span.NoSpan? ==> more == ""
    ensures var m' := FireData(h, m, k, more);
            && Norm(m') == (if more == "" then Norm(m) else Put(Norm(m), Data(k, more)))
            && m'.r == m.r.(errno := m'.r.errno) && m'.r.errno in {OK, Paused}
            && m'.span.NoSpan?
  {
    DataSim(h, m, k, more);
    if m.span.Marked? {
      DataNorm(h, m, k, more);
      PutTwice(Merge(m.trace), k, m.span.bytes, "");
      assert m.span.bytes + "" == m.span.bytes;
    }
  }

  lemma NoteSim(h: Handler, m: M, n: Note)
    requires Transparent(h) && m.r.errno == OK
    ensures FireNote(h, m, n).r == m.r.(errno := FireNote(h, m, n).r.errno)
    ensures FireNote(h, m, n).r.errno in {OK, Paused} && FireNote(h, m, n).span == m.span
  {
  }

  lemma DataSim(h: Handler, m: M, k: DataKind, more: string)
    requires Transparent(h) && m.r.errno == OK
    ensures FireData(h, m, k, more).r == m.r.(errno := FireData(h, m, k, more).r.errno)
    ensures FireData(h, m, k, more).r.errno in {OK, Paused}
  {
  }

  lemma HiddenOrSame(m: M, ch: char)
    requires MOk(m)
    ensures if Hidden(m, ch) then Transition(m.r, ch, false) == Fail(m.r, InvalidHeaderToken) && m.r.state.HeaderValue?
            else Transition(m.r, ch, m.skip) == Transition(m.r, ch, false)
  {
  }

  predicate Leaves(r: Regs, ch: char) {
    var a := Transition(r, ch, false);
    a.Go? && a.move.Leave?
  }

  lemma DoSim(h: Handler, m: M, ch: char)
    requires MOk(m) && Transparent(h) && !Hidden(m, ch)
    ensures Simulates(Do(h, m, ch), ADo(AbsOf(m), ch), Leaves(m.r, ch))
    ensures Leaves(m.r, ch) ==> ADo(AbsOf(m), ch).AHalt? && ADo(AbsOf(m), ch).s.r.errno == OK
  {
    TransitionOk(m, ch);
    HiddenOrSame(m, ch);
    hide Transition, MOk, RegsOk, Norm, MarksOk, Hidden;
    ApplySim(h, m, Transition(m.r, ch, false), ch);
  }

  /** A stream, one step further. */
  lemma AStepRun(s: Abs, data: string, i: nat)
    requires i < |data|
    ensures ARun(s, data, i) ==
            match ADo(s, data[i])
            case ANext(s') => ARun(s', data, i + 1)
            case AAgain(s') => ARun(s', data, i)
            case AHalt(s', used) => AOutcome(s', if used then i + 1 else i, true)
  {
    hide ADo;
  }

  /** The stream fails at a byte of a header value. */
  predicate IllegalValue(o: AOutcome) {
    o.stopped && o.s.r.errno == InvalidHeaderToken && o.s.r.state.HeaderValue?
  }

  /** The stream ends in a change of protocol. */
  predicate Upgraded(o: AOutcome) {
    o.stopped && o.s.r.errno == OK
  }

  /** A byte of a header value that is an error when it is looked at. */
  predicate Illegal(r: Regs, ch: char) {
    r.state.HeaderValue? && ch != CR && ch != LF && !r.lenient && !IsHeaderChar(ch)
  }

  /** The stream fails at an illegal byte of a header value that comes directly behind a byte read in a value of no
      interest; `prev` says that the byte before `data[i]` was one. A call that has read both does not see the error. */
  ghost predicate Concealed(s: Abs, data: string, i: nat, prev: bool)
    requires i <= |data|
    decreases |data| - i, Rank(s.r.state)
  {
    i < |data| &&
    match ADo(s, data[i])
    case ANext(s') => Concealed(s', data, i + 1, Searching(s.r, s'.r))
    case AAgain(s') => Concealed(s', data, i, false)
    case AHalt(_, _) => prev && Illegal(s.r, data[i])
  }

  lemma ConcealedStep(s: Abs, data: string, i: nat, prev: bool)
    requires i < |data|
    ensures Concealed(s, data, i, prev) ==
            match ADo(s, data[i])
            case ANext(s') => Concealed(s', data, i + 1, Searching(s.r, s'.r))
            case AAgain(s') => Concealed(s', data, i, false)
            case AHalt(_, _) => prev && Illegal(s.r, data[i])
    ensures Concealed(s, data, i, false) ==> Concealed(s, data, i, prev)
  {
    hide ADo, Illegal;
  }

  lemma ConcealedMore(s: Abs, data: string, i: nat, prev: bool)
    requires i <= |data|
    ensures Concealed(s, data, i, false) ==> Concealed(s, data, i, prev)
  {
    if i < |data| {
      ConcealedStep(s, data, i, prev);
    }
  }

  /** What a pass of a call through the switch is for the stream, unless the byte is hidden. */
  lemma StepSim(h: Handler, m: M, ch: char)
    requires MOk(m) && Transparent(h) && !Hidden(m, ch)
    ensures match Do(h, m, ch)
            case Next(m') => MOk(m') && ADo(AbsOf(m), ch) == ANext(AbsOf(m')) && m'.skip == Searching(m.r, m'.r)
            case Again(m') => MOk(m') && ADo(AbsOf(m), ch) == AAgain(AbsOf(m')) && !m'.skip
            case Halt(m', used) =>
              if m'.r.errno == Paused
              then
                var s' := Abs(m'.r.(errno := OK), Norm(m'));
                var x := ADo(AbsOf(m), ch);
                (x.AHalt? && x.s.r.errno == OK) || x == if used then ANext(s') else AAgain(s')
              else ADo(AbsOf(m), ch) == AHalt(AbsOf(m'), used)
  {
    hide MOk, Transition, ADo, Do, Transparent, Norm, Hidden, Leaves, Searching;
    SkipStaysOff(h, m, ch);
    DoSim(h, m, ch);
    DoOk(h, m, ch);
  }

  lemma SkipStaysOff(h: Handler, m: M, ch: char)
    requires MOk(m)
    ensures !m.skip ==> !Hidden(m, ch)
    ensures Do(h, m, ch).Again? ==> !Do(h, m, ch).m.skip
    ensures Do(h, m, ch).Next? ==> Do(h, m, ch).m.skip == Searching(m.r, Do(h, m, ch).m.r)
  {
    DoOk(h, m, ch);
    SkipIs(h, m, ch);
    hide Transition, RegsOk, SpanOk, Do;
  }

  lemma SkipIs(h: Handler, m: M, ch: char)
    ensures Do(h, m, ch).Next? ==> Do(h, m, ch).m.skip == Searching(m.r, Do(h, m, ch).m.r)
  {
    var a := Transition(m.r, ch, m.skip);
    hide Transition, Fire;
    if a.Go? {
      FireHead(h, MovedTo(m, a.r, a.mark, ch), a.cb, ch);
    }
  }

  /** A hidden byte is one at which the stream fails, behind a byte of no interest. */
  lemma HiddenStops(m: M, data: string, i: nat)
    requires MOk(m) && i < |data|
    ensures Hidden(m, data[i]) ==>
              && ADo(AbsOf(m), data[i]) == AHalt(Abs(m.r.(errno := InvalidHeaderToken), Norm(m)), false)
              && IllegalValue(ARun(AbsOf(m), data, i)) && Concealed(AbsOf(m), data, i, m.skip)
  {
    HiddenOrSame(m, data[i]);
    AStepRun(AbsOf(m), data, i);
    ConcealedStep(AbsOf(m), data, i, m.skip);
    hide Transition, MOk, ARun, Norm, Concealed;
  }

  /** The call has come as far as `c`; the stream as a whole gives `o`. */
  ghost predicate Reaches(c: Outcome, data: string, pos: nat, n: nat, o: AOutcome)
    requires pos + n <= |data| && c.at <= n
  {
    if !c.stopped then MOk(c.m) && ARun(AbsOf(c.m), data, pos + n) == o
    else if c.m.r.errno == Paused then ARun(Abs(c.m.r.(errno := OK), Norm(c.m)), data, pos + c.at) == o
    else o == AOutcome(AbsOf(c.m), pos + c.at, true)
  }

  /** Nothing is concealed in what is left of the stream. */
  ghost predicate Plain(c: Outcome, data: string, pos: nat, n: nat)
    requires pos + n <= |data| && c.at <= n
  {
    if !c.stopped then !Concealed(AbsOf(c.m), data, pos + n, false)
    else c.m.r.errno == Paused ==> !Concealed(Abs(c.m.r.(errno := OK), Norm(c.m)), data, pos + c.at, false)
  }

  /** Callbacks that do not pause, whatever they return. */
  ghost predicate NeverPauses(h: Handler) {
    forall t :: !h(t).pause
  }

  lemma NotPaused(m: M)
    requires MOk(m)
    ensures m.r.errno == OK
  {
  }

  lemma DoKeepsGoing(h: Handler, m: M, ch: char)
    requires NeverPauses(h) && MOk(m)
    ensures Do(h, m, ch).m.r.errno != Paused
  {
    TransitionOk(m, ch);
    hide Transition, MOk, RegsOk;
    NotPaused(m);
  }

  /** A pass that ends the call. */
  lemma HaltSim(h: Handler, m: M, data: string, pos: nat, n: nat, i: nat)
    requires MOk(m) && Transparent(h) && i < n && pos + n <= |data| && !Hidden(m, data[pos + i])
    requires Do(h, m, data[pos + i]).Halt? && (!Upgraded(ARun(AbsOf(m), data, pos + i)) || NeverPauses(h))
    ensures var s := Do(h, m, data[pos + i]);
            var c := Outcome(s.m, if s.used then i + 1 else i, true);
            && Reaches(c, data, pos, n, ARun(AbsOf(m), data, pos + i))
            && (!Concealed(AbsOf(m), data, pos + i, m.skip) ==> Plain(c, data, pos, n))
  {
    hide MOk, ADo, Do, Transparent, NeverPauses, Norm, Hidden, ARun, Concealed, Searching, Illegal;
    var ch := data[pos + i];
    StepSim(h, m, ch);
    if NeverPauses(h) {
      DoKeepsGoing(h, m, ch);
    }
    AStepRun(AbsOf(m), data, pos + i);
    ConcealedStep(AbsOf(m), data, pos + i, m.skip);
    var s := Do(h, m, ch);
    if s.m.r.errno == Paused {
      var t := Abs(s.m.r.(errno := OK), Norm(s.m));
      ConcealedMore(t, data, if s.used then pos + i + 1 else pos + i, Searching(m.r, t.r));
    }
  }

  /** One pass of a call through the switch, and the stream. */
  lemma PassSim(h: Handler, m: M, data: string, pos: nat, n: nat, i: nat)
    requires MOk(m) && Transparent(h) && i < n && pos + n <= |data|
    requires !Concealed(AbsOf(m), data, pos + i, m.skip) || (n == 1 && (i == 0 ==> !m.skip))
    requires !Upgraded(ARun(AbsOf(m), data, pos + i)) || NeverPauses(h)
    ensures var o, hidden := ARun(AbsOf(m), data, pos + i), Concealed(AbsOf(m), data, pos + i, m.skip);
            match Do(h, m, data[pos + i])
            case Next(m') =>
              MOk(m') && o == ARun(AbsOf(m'), data, pos + i + 1)
                && hidden == Concealed(AbsOf(m'), data, pos + i + 1, m'.skip)
            case Again(m') =>
              MOk(m') && o == ARun(AbsOf(m'), data, pos + i) && hidden == Concealed(AbsOf(m'), data, pos + i, m'.skip)
              && !m'.skip
            case Halt(m', used) =>
              var c := Outcome(m', if used then i + 1 else i, true);
              Reaches(c, data, pos, n, o) && (!hidden ==> Plain(c, data, pos, n))
  {
    hide MOk, Do, Transparent, NeverPauses, ARun, ADo, AbsOf, Upgraded, Concealed, Searching, Hidden, Norm, Illegal,
         IllegalValue, Reaches, Plain;
    var ch := data[pos + i];
    HiddenStops(m, data, pos + i);
    SkipStaysOff(h, m, ch);
    StepSim(h, m, ch);
    AStepRun(AbsOf(m), data, pos + i);
    ConcealedStep(AbsOf(m), data, pos + i, m.skip);
    SameRegs(m);
    var s := Do(h, m, ch);
    SameRegs(s.m);
    if s.Halt? {
      HaltSim(h, m, data, pos, n, i);
    }
  }

  lemma EndSim(h: Handler, m: M, data: string, pos: nat, n: nat)
    requires MOk(m) && pos + n <= |data|
    ensures Reaches(Run(h, m, data[pos..pos + n], n), data, pos, n, ARun(AbsOf(m), data, pos + n))
    ensures !Concealed(AbsOf(m), data, pos + n, m.skip) ==> Plain(Run(h, m, data[pos..pos + n], n), data, pos, n)
  {
    hide MOk, Run, ARun, AbsOf, Concealed;
    RunAtEnd(h, m, data[pos..pos + n]);
    ConcealedMore(AbsOf(m), data, pos + n, m.skip);
  }

  lemma {:induction false} RunSim(h: Handler, m: M, data: string, pos: nat, n: nat, i: nat)
    requires MOk(m) && Transparent(h) && i <= n && pos + n <= |data|
    requires !Concealed(AbsOf(m), data, pos + i, m.skip) || (n == 1 && (i == 0 ==> !m.skip))
    requires !Upgraded(ARun(AbsOf(m), data, pos + i)) || NeverPauses(h)
    ensures Reaches(Run(h, m, data[pos..pos + n], i), data, pos, n, ARun(AbsOf(m), data, pos + i))
    ensures !Concealed(AbsOf(m), data, pos + i, m.skip) ==> Plain(Run(h, m, data[pos..pos + n], i), data, pos, n)
    decreases n - i, Rank(m.r.state)
  {
    hide MOk, Do, Transparent, NeverPauses, Run, ARun, AbsOf, Upgraded, Concealed, Reaches, Plain, ADo, Norm, Rank;
    var slice := data[pos..pos + n];
    if i == n {
      EndSim(h, m, data, pos, n);
    } else {
      PassSim(h, m, data, pos, n, i);
      SpecStep(h, m, slice, i);
      match Do(h, m, data[pos + i])
      case Next(m') => RunSim(h, m', data, pos, n, i + 1);
      case Again(m') => RunSim(h, m', data, pos, n, i);
      case Halt(_, _) =>
    }
  }

  /** A concealed byte ends the stream. */
  lemma {:induction false} ConcealedStops(s: Abs, data: string, i: nat, prev: bool)
    requires i <= |data|
    ensures Concealed(s, data, i, prev) ==> IllegalValue(ARun(s, data, i)) && ARun(s, data, i).at < |data|
    decreases |data| - i, Rank(s.r.state)
  {
    hide ADo, Concealed, ARun, Searching;
    if i < |data| {
      AStepRun(s, data, i);
      ConcealedStep(s, data, i, prev);
      IllegalFails(s, data[i]);
      match ADo(s, data[i])
      case ANext(s') => ConcealedStops(s', data, i + 1, Searching(s.r, s'.r));
      case AAgain(s') => ConcealedStops(s', data, i, false);
      case AHalt(_, _) =>
    } else {
      NotConcealedAtEnd(s, data, prev);
    }
  }

  lemma NotConcealedAtEnd(s: Abs, data: string, prev: bool)
    ensures !Concealed(s, data, |data|, prev)
  {
  }

  lemma IllegalFails(s: Abs, ch: char)
    ensures Illegal(s.r, ch) ==> ADo(s, ch) == AHalt(s.(r := s.r.(errno := InvalidHeaderToken)), false)
  {
    hide ValueNext;
  }

  lemma SameRegs(m: M)
    ensures AbsOf(m).r == m.r
  {
  }
}
