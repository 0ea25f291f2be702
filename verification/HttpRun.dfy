/** What one call of `http_parser_execute` means: the byte automaton with its marks,
    its callbacks and its early exits, and the fold of it over a buffer. */
module HttpRun {
  import opened HttpTypes
  import opened HttpAutomaton

  /** `Marked(k, bytes)`: the mark of kind `k` is set and `bytes` lie between it and the current byte. */
  datatype Span = NoSpan | Marked(kind: DataKind, bytes: string)

  function Max(a: nat, b: nat): nat {
    if a > b then a else b
  }

  /** The bytes of a call that belong to the headers: `bytes` have been consumed since the call began or, if
      `restarted`, since the header size was last reset; `begun` says that the current byte has been read in
      a state of the headers. `first` were consumed before the first reset, and `most` is the largest number between
      two resets. */
  datatype Head = Head(bytes: nat, begun: bool, restarted: bool, first: nat, most: nat) {
    /** A byte is read in state `s`. */
    function Read(s: State, ch: char): Head {
      if Resets(s, ch) then Head(0, false, true, if restarted then first else bytes, if restarted then Max(most, bytes)
                                 else 0)
      else this.(begun := begun || ParsingHeader(s))
    }

    /** The current byte is consumed. */
    function Consumed(): Head {
      this.(bytes := if begun then bytes + 1 else bytes, begun := false)
    }

    /** The current byte is left for the next call. */
    function Left(): Head {
      this.(begun := false)
    }

    /** The bytes counted when the current byte is about to be read in state `s`. */
    function Fetched(s: State): nat {
      if begun || ParsingHeader(s) then bytes + 1 else bytes
    }

    /** `n` bytes are consumed in a state of the headers. */
    function Plus(n: nat): Head {
      if n == 0 then this else this.(bytes := bytes + n, begun := false)
    }

    /** The largest size that the headers have had so far; `hdr` is their size at the beginning of the call. */
    function Height(hdr: nat): nat {
      if restarted then Max(hdr + first, Max(most, bytes)) else hdr + bytes
    }

    /** The largest size that the headers have had so far, with one more for this call and for each earlier call that
        may have counted a byte twice; there are `cuts` of these, and `hdr` is the size at the beginning of the call.
        */
    function Size(hdr: nat, cuts: nat): nat {
      if restarted then Max(hdr + first + cuts + 1, Max(most, bytes) + 1) else hdr + bytes + cuts + 1
    }
  }

  const NO_HEAD: Head := Head(0, false, false, 0, 0)

  /** The parser in the middle of a call; `trace` lists the callbacks made since the parser was created. */
  datatype M = M(r: Regs, trace: seq<Event>, span: Span, skip: bool, head: Head)

  datatype Step =
    | Next(m: M)                // byte consumed
    | Again(m: M)               // goto reexecute
    | Halt(m: M, used: bool)    // return; `used` says whether this byte counts as parsed

  function OpenMark(s: Span, op: MarkOp): Span {
    if op.Open? && s.NoSpan? then Marked(op.kind, "") else s
  }

  /** Inside the search for the end of a value of no interest (`memchr`). */
  predicate Searching(before: Regs, after: Regs) {
    before.state.HeaderValue? && before.hstate.General? && after.state.HeaderValue?
  }

  /** The effect of a notification callback that answered `a`. */
  function AfterNote(r: Regs, n: Note, a: Response): Regs {
    if n.OnHeadersComplete? && a.code in {0, 1, 2} then
      r.(flags := if a.code != 0 then r.flags.(skipBody := true) else r.flags,
         upgrade := r.upgrade || a.code == 2,
         errno := if a.pause then Paused else OK)
    else if a.code != 0 then r.(errno := NoteErrno(n))
    else r.(errno := if a.pause then Paused else OK)
  }

  function AfterData(r: Regs, k: DataKind, a: Response): Regs {
    r.(errno := if a.code != 0 then DataErrno(k) else if a.pause then Paused else OK)
  }

  function FireNote(h: Handler, m: M, n: Note): M {
    var trace := m.trace + [EventOf(n, m.r)];
    m.(r := AfterNote(m.r, n, h(trace)), trace := trace)
  }

  /** The data callback of the mark of kind `k`, if that mark is set. */
  function FireData(h: Handler, m: M, k: DataKind, more: string): M {
    if m.span.Marked? && m.span.kind == k then
      var trace := m.trace + [Data(k, m.span.bytes + more)];
      m.(r := AfterData(m.r, k, h(trace)), trace := trace, span := NoSpan)
    else m
  }

  function Fire(h: Handler, m: M, cb: Callback, ch: char): M {
    match cb
    case Quiet => m
    case Notify(n) => FireNote(h, m, n)
    case Flush(k, last) => FireData(h, m, k, if last then [ch] else "")
  }

  /** A consumed byte lies behind every mark that is set. */
  function Consume(m: M, ch: char): M {
    m.(span := if m.span.Marked? then Marked(m.span.kind, m.span.bytes + [ch]) else NoSpan, head := m.head.Consumed())
  }

  /** The automaton has moved to `r`. */
  function MovedTo(m: M, r: Regs, mark: MarkOp, ch: char): M {
    M(r, m.trace, OpenMark(m.span, mark), Searching(m.r, r), m.head.Read(m.r.state, ch))
  }

  function Apply(h: Handler, m: M, a: Act, ch: char): Step {
    match a
    case Fail(r, e) => Halt(m.(r := r.(errno := e)), false)
    case Go(r, mark, cb, move) =>
      var m' := Fire(h, MovedTo(m, r, mark, ch), cb, ch);
      if m'.r.errno != OK then
        if move.Reread? then Halt(m'.(head := m'.head.Left()), false) else Halt(m'.(head := m'.head.Consumed()), true)
      else match move
        case Advance => Next(Consume(m', ch))
        case Reread => Again(m')
        case Leave => Halt(m'.(head := m'.head.Consumed()), true)
  }

  function Do(h: Handler, m: M, ch: char): (s: Step)
    ensures s.Again? ==> Rank(s.m.r.state) < Rank(m.r.state)
  {
    RereadLowersRank(m.r, ch, m.skip);
    Apply(h, m, Transition(m.r, ch, m.skip), ch)
  }

  /** `at` is the position of the first byte that is not parsed. */
  datatype Outcome = Outcome(m: M, at: nat, stopped: bool)

  /** The loop of `http_parser_execute` over `data[i..]`. */
  function Run(h: Handler, m: M, data: string, i: nat): (o: Outcome)
    requires i <= |data|
    ensures i <= o.at <= |data|
    ensures !o.stopped ==> o.at == |data|
    decreases |data| - i, Rank(m.r.state)
  {
    if i == |data| then Outcome(m, i, false)
    else
      match Do(h, m, data[i])
      case Next(m') => Run(h, m', data, i + 1)
      case Again(m') => Run(h, m', data, i)
      case Halt(m', used) => Outcome(m', if used then i + 1 else i, true)
  }

  /** The marks that are set again when a call starts in the middle of a span. */
  function Begin(r: Regs, trace: seq<Event>): M {
    M(r, trace,
      if r.state.HeaderField? then Marked(Field, "")
      else if r.state.HeaderValue? then Marked(Value, "")
      else if InUrl(r.state) then Marked(Url, "")
      else if r.state.ResStatus? then Marked(Status, "")
      else NoSpan,
      false, NO_HEAD)
  }

  /** The data callback for a mark left over at the end of the buffer. */
  function Finish(h: Handler, m: M): M {
    if m.span.Marked? then FireData(h, m, m.span.kind, "") else m
  }

  /** The parser between calls, and the value a call returned. */
  datatype Snapshot = Snapshot(r: Regs, trace: seq<Event>)
  datatype Result = Result(p: Snapshot, used: nat)

  /** An empty buffer stands for the end of the stream. */
  function AtEof(h: Handler, p: Snapshot): Result {
    if p.r.state.BodyIdentityEof? then
      var m := FireNote(h, Begin(p.r, p.trace), OnMessageComplete);
      Result(Snapshot(m.r, m.trace), 0)
    else if p.r.state.Dead? || p.r.state.StartReqOrRes? || p.r.state.StartRes? || p.r.state.StartReq?
    then Result(p, 0)
    else Result(p.(r := p.r.(errno := InvalidEofState)), 1)
  }

  /** The end of a call with a buffer that is not empty. */
  function Last(h: Handler, p: Snapshot, data: string): M {
    var o := Run(h, Begin(p.r, p.trace), data, 0);
    if o.stopped then o.m else Finish(h, o.m)
  }

  /** `http_parser_execute`, as long as no header grows too large. */
  function Call(h: Handler, p: Snapshot, data: string): (c: Result)
    ensures data != "" ==> c.used <= |data|
  {
    if p.r.errno != OK then Result(p, 0)
    else if data == "" then AtEof(h, p)
    else
      var m := Last(h, p, data);
      Result(Snapshot(m.r, m.trace), Run(h, Begin(p.r, p.trace), data, 0).at)
  }

  /** `http_parser_init` */
  function Init(t: ParserType): Snapshot {
    Snapshot(InitRegs(t), [])
  }

  /** `http_parser_pause` on a parser without an error. */
  function SetPaused(p: Snapshot, paused: bool): Snapshot
    requires p.r.errno in {OK, Paused}
  {
    p.(r := p.r.(errno := if paused then Paused else OK))
  }
}
