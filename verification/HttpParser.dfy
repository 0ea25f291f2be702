/** `http_parser_execute` on the parser object: marks as positions in the buffer,
    inner loops, bulk skips, early returns and the header size check. */
module HttpParser {
  import opened Bytes
  import opened HttpTypes
  import opened HttpAutomaton
  import opened HttpRun
  import opened HttpInvariant
  import opened HttpSkips

  const NULL: int := -1

  /** The five mark pointers, as positions in the buffer. */
  datatype Marks = Marks(field: int, value: int, url: int, body: int, status: int) {
    function Get(k: DataKind): int {
      match k
      case Field => field case Value => value case Url => url case Body => body case Status => status
    }

    function Put(k: DataKind, p: int): Marks {
      match k
      case Field => this.(field := p)
      case Value => this.(value := p)
      case Url => this.(url := p)
      case Body => this.(body := p)
      case Status => this.(status := p)
    }
  }

  const NO_MARKS: Marks := Marks(NULL, NULL, NULL, NULL, NULL)

  /** The marks stand for `span` when the current byte is `data[p]`; at most one of them is set. */
  ghost predicate Covers(marks: Marks, span: Span, data: string, p: nat) {
    match span
    case NoSpan => marks == NO_MARKS
    case Marked(k, bytes) =>
      && 0 <= marks.Get(k) <= p <= |data|
      && bytes == data[marks.Get(k)..p]
      && marks == NO_MARKS.Put(k, marks.Get(k))
  }

  lemma EntersChunkSize(h: Handler, m: M, ch: char)
    ensures var s := Do(h, m, ch); s.m.r.state.ChunkSizeStart? && s.m.r.errno in {OK, Paused} ==> Resets(m.r.state, ch)
  {
    StartsChunk(m.r, ch, m.skip);
    var a := Transition(m.r, ch, m.skip);
    hide Transition, PartOf, Resets;
    if a.Go? {
      var m' := MovedTo(m, a.r, a.mark, ch);
      assert Fire(h, m', a.cb, ch).r.state == a.r.state;
    }
  }

  /** The byte automaton knows nothing of the header size. */
  lemma NeverOverflows(h: Handler, m: M, ch: char)
    requires MOk(m)
    ensures Do(h, m, ch).m.r.errno != HeaderOverflow
  {
    TransitionOk(m, ch);
    var a := Transition(m.r, ch, m.skip);
    hide Transition, MOk, RegsOk, MarksOk, Fire;
    if a.Go? {
      FireErrno(h, MovedTo(m, a.r, a.mark, ch), a.cb, ch);
    }
  }

  lemma FireErrno(h: Handler, m: M, cb: Callback, ch: char)
    requires m.r.errno != HeaderOverflow
    ensures Fire(h, m, cb, ch).r.errno != HeaderOverflow
  {
  }

  lemma {:induction false} RunNeverOverflows(h: Handler, m: M, data: string, i: nat)
    requires MOk(m) && i <= |data|
    ensures Run(h, m, data, i).m.r.errno != HeaderOverflow
    decreases |data| - i, Rank(m.r.state)
  {
    if i < |data| {
      NeverOverflows(h, m, data[i]);
      DoOk(h, m, data[i]);
      hide MOk, Do;
      match Do(h, m, data[i])
      case Next(m') => RunNeverOverflows(h, m', data, i + 1);
      case Again(m') => RunNeverOverflows(h, m', data, i);
      case Halt(_, _) =>
    } else {
      InHeader(m);
    }
  }

  /** `skip` makes no difference outside a value, and is not set there. */
  lemma SkipIrrelevant(h: Handler, m: M, ch: char)
    requires m.r.state.HeaderValue? ==> ch == CR || ch == LF
    requires MOk(m)
    ensures Transition(m.r, ch, m.skip) == Transition(m.r, ch, false)
    ensures var s := Do(h, m, ch); !s.Halt? ==> !s.m.skip
  {
    SameAct(m, ch);
    SearchesNot(h, m, ch);
    hide Transition, MOk, Do;
  }

  lemma SearchesNot(h: Handler, m: M, ch: char)
    requires m.r.state.HeaderValue? ==> ch == CR || ch == LF
    ensures var s := Do(h, m, ch); !s.Halt? ==> !s.m.skip
  {
    LeavesValue(m.r, ch, m.skip);
    var a := Transition(m.r, ch, m.skip);
    hide Transition, Fire, Searching, OpenMark, Rank;
    if a.Go? {
      FireHead(h, MovedTo(m, a.r, a.mark, ch), a.cb, ch);
    }
  }

  lemma SameAct(m: M, ch: char)
    requires MOk(m) && (m.r.state.HeaderValue? ==> ch == CR || ch == LF)
    ensures Transition(m.r, ch, m.skip) == Transition(m.r, ch, false)
  {
    if !m.r.state.HeaderValue? {
      assert !m.skip;
    }
  }

  lemma LeavesValue(r: Regs, ch: char, skip: bool)
    requires r.state.HeaderValue? ==> ch == CR || ch == LF
    ensures var a := Transition(r, ch, skip); a.Go? ==> !Searching(r, a.r)
  {
  }

  lemma CoversOpen(marks: Marks, span: Span, op: MarkOp, data: string, p: nat)
    requires p <= |data| && Covers(marks, span, data, p)
    requires op.Open? && span.Marked? ==> span.kind == op.kind
    ensures var marks' := if op.Open? && marks.Get(op.kind) < 0 then marks.Put(op.kind, p) else marks;
            Covers(marks', OpenMark(span, op), data, p)
  {
    if op.Open? && span.NoSpan? {
      assert data[p..p] == "";
    }
  }

  lemma CoversFlush(marks: Marks, span: Span, k: DataKind, data: string, p: nat, last: bool)
    requires p < |data| && Covers(marks, span, data, p)
    requires span.Marked? ==> span.kind == k
    ensures marks.Get(k) <= p && (marks.Get(k) >= 0 <==> span.Marked?)
    ensures span.Marked? ==>
              && span.bytes + (if last then [data[p]] else "") == data[marks.Get(k)..if last then p + 1 else p]
              && marks.Put(k, NULL) == NO_MARKS
  {
  }

  lemma CoversConsume(marks: Marks, m: M, data: string, p: nat)
    requires p < |data| && Covers(marks, m.span, data, p)
    ensures Covers(marks, Consume(m, data[p]).span, data, p + 1)
  {
  }

  lemma CoversExtend(marks: Marks, span: Span, data: string, p: nat, q: nat)
    requires p <= q <= |data| && Covers(marks, span, data, p) && span.Marked?
    ensures Covers(marks, Marked(span.kind, Behind(span) + data[p..q]), data, q)
  {
  }

  lemma CoversBody(marks: Marks, span: Span, data: string, p: nat, n: nat)
    requires p + n <= |data| && Covers(marks, span, data, p) && (span.Marked? ==> span.kind == Body)
    ensures var marks' := if marks.body < 0 then marks.(body := p) else marks;
            && Covers(marks', Marked(Body, Behind(span) + data[p..p + n]), data, p + n)
            && marks'.Get(Body) >= 0 && data[marks'.Get(Body)..p + n] == Behind(span) + data[p..p + n]
            && marks'.Put(Body, NULL) == NO_MARKS
  {
  }

  /** `assert(... <= 1)` at the end of a call. */
  lemma AtMostOneMark(marks: Marks, span: Span, data: string)
    requires Covers(marks, span, data, |data|)
    ensures forall j, k | j != k :: marks.Get(j) == NULL || marks.Get(k) == NULL
    ensures span.NoSpan? ==> marks == NO_MARKS
    ensures span.Marked? ==> data[marks.Get(span.kind)..|data|] == span.bytes + ""
  {
  }

  lemma NoteNeverOverflows(n: Note)
    ensures NoteErrno(n) != HeaderOverflow
  {
  }

  lemma CoversNothing(span: Span, data: string, p: nat)
    ensures span.NoSpan? ==> Covers(NO_MARKS, span, data, p)
  {
  }

  lemma CoversAtStart(marks: Marks, span: Span, data: string)
    requires Covers(marks, span, "", 0)
    ensures Covers(marks, span, data, 0)
  {
  }

  lemma LengthKnown(m: M)
    requires MOk(m)
    ensures m.r.state.BodyIdentity? || m.r.state.ChunkData? ==> m.r.clen != 0 && m.r.clen != NO_LENGTH
    ensures Rank(MessageDone) < Rank(BodyIdentity)
    ensures m.r.state.BodyIdentity? || m.r.state.ChunkData? || m.r.state.BodyIdentityEof? ==>
              m.r.errno == OK && !m.skip && (m.span.Marked? ==> m.span.kind == Body)
  {
  }

  lemma BodyReadIs(m: M, data: string, p: nat, n: nat)
    requires p + n <= |data| && n <= m.r.clen
    ensures BodyRead(m, data, p, n) ==
            m.(r := m.r.(clen := m.r.clen - n), span := Marked(Body, Behind(m.span) + data[p..p + n]))
  {
  }

  /** How `http_parser_execute` goes on after the switch. */
  datatype Continue = Consumed | ReadAgain | Return(used: bool)

  ghost predicate Follows(s: Step, marks: Marks, next: Continue, data: string, p: nat) {
    match s
    case Next(m) => next.Consumed? && Covers(marks, m.span, data, p + 1)
    case Again(m) => next.ReadAgain? && Covers(marks, m.span, data, p)
    case Halt(m, used) => next == Return(used)
  }

  /** What a pass that looked at the byte `ch` does to the count of header bytes; `m'` is what it came to. */
  ghost predicate Heads(m: M, ch: char, next: Continue, e: Errno, m': M) {
    var d := m.head.Read(m.r.state, ch);
    match next
    case Consumed => m'.head == d.Consumed()
    case ReadAgain =>
      m'.head == d && !Resets(m.r.state, ch) && (ParsingHeader(m'.r.state) ==> ParsingHeader(m.r.state))
    case Return(used) => e in {OK, Paused} ==> m'.head == if used then d.Consumed() else d.Left()
  }

  /** The states that take body bytes. */
  predicate TakesBody(s: State) {
    s.BodyIdentity? || s.ChunkData? || s.BodyIdentityEof?
  }

  /** A byte that is read again stays a byte of the headers, or ends the message. */
  lemma RereadWhere(r: Regs, ch: char, skip: bool)
    ensures var a := Transition(r, ch, skip);
            a.Go? && a.move.Reread? ==>
              && !TakesBody(a.r.state) && !Resets(r.state, ch)
              && (ParsingHeader(a.r.state) ==> ParsingHeader(r.state))
  {
    match PartOf(r.state)
    case InVersion => VersionShape(r, ch);
    case WithinUrl => UrlByteShape(r, ch);
    case InMethod => assert MethodByte(r, ch).Go? ==> MethodByte(r, ch).move.Advance?;
    case AroundValue => assert ValueFirst(r, ch).Go? ==> ValueFirst(r, ch).move.Advance?;
    case _ =>
  }

  lemma HeadsAfter(h: Handler, m: M, ch: char)
    requires MOk(m)
    ensures match Do(h, m, ch)
            case Next(m') => m'.head == m.head.Read(m.r.state, ch).Consumed()
            case Again(m') =>
              && m'.head == m.head.Read(m.r.state, ch) && !Resets(m.r.state, ch) && !TakesBody(m'.r.state)
              && (ParsingHeader(m'.r.state) ==> ParsingHeader(m.r.state))
            case Halt(m', used) =>
              m'.r.errno in {OK, Paused} ==>
                m'.head == var d := m.head.Read(m.r.state, ch); if used then d.Consumed() else d.Left()
  {
    RereadWhere(m.r, ch, m.skip);
    var a := Transition(m.r, ch, m.skip);
    hide Transition, ParsingHeader, Resets, MOk, Fire;
    if a.Go? {
      FireHead(h, MovedTo(m, a.r, a.mark, ch), a.cb, ch);
    }
  }

  /** Inside a name or a value. */
  predicate Inside(s: State) {
    s.HeaderField? || s.HeaderValue?
  }

  /** How far the count stays behind its bound at the end of a call: a call that is paused may leave a byte it has
      counted, and one that ends inside a name or a value has counted its last byte twice. */
  function Slack(s: State, e: Errno): nat {
    if e == Paused || Inside(s) then 0 else 1
  }

  /** The line end of a value is consumed, unless the callback stops the call. */
  lemma CrMoves(h: Handler, m: M, ch: char)
    requires m.r.state.HeaderValue? && ch == CR
    ensures Do(h, m, ch).Next? || (Do(h, m, ch).Halt? && Do(h, m, ch).m.r.errno != OK)
    ensures Do(h, m, ch).m.r.state.HeaderAlmostDone?
  {
    CrActs(m, ch);
    hide Transition, Fire;
    FireHead(h, MovedTo(m, m.r.(state := HeaderAlmostDone), Keep, ch), Flush(Value, false), ch);
  }

  lemma CrActs(m: M, ch: char)
    requires m.r.state.HeaderValue? && ch == CR
    ensures Transition(m.r, ch, m.skip) == Go(m.r.(state := HeaderAlmostDone), Keep, Flush(Value, false), Advance)
  {
  }

  class Parser {
    var ptype: ParserType
    var flags: Flags
    var state: State
    var hstate: HState
    var index: nat
    var lenient: bool
    var nread: nat
    var clen: nat
    var major: nat
    var minor: nat
    var status: nat
    var meth: Method
    var errno: Errno
    var upgrade: bool
    /** The callbacks made so far. */
    var trace: seq<Event>

    /** At the end of the last call: the bytes consumed in header states since `nread` was last reset. */
    ghost var hdr: nat
    /** The calls since then that were paused or ended inside a header name or value: each may have counted one byte
        more than it consumed. */
    ghost var cuts: nat
    /** Whether a call since then was paused by the callback at the end of a header value. */
    ghost var paused: bool
    function R(): Regs
      reads `ptype, `flags, `state, `hstate, `index, `lenient, `clen, `major, `minor, `status, `meth, `errno, `upgrade
    {
      Regs(ptype, flags, state, hstate, index, lenient, clen, major, minor, status, meth, errno, upgrade)
    }

    ghost function View(): Snapshot
      reads this
    {
      Snapshot(R(), trace)
    }

    /** Between calls: `nread` is never less than the header bytes consumed, unless a pause at the end of a
        header value lost some, and exceeds them by at most one byte for each cut. */
    ghost predicate CountOk()
      reads `errno, `nread, `hdr, `cuts, `paused
    {
      errno in {OK, Paused} ==> nread <= MAX_HEADER_SIZE && nread <= hdr + cuts && (!paused ==> hdr <= nread)
    }

    /** The header bytes since the last reset, `bytes` of them in this call. */
    ghost function SizeOf(d: Head, bytes: nat): nat
      reads `hdr
    {
      if d.restarted then bytes else hdr + bytes
    }

    /** The cuts since the last reset, and one more for this call. */
    ghost function CutsOf(d: Head): nat
      reads `cuts
    {
      if d.restarted then 1 else cuts + 1
    }

    /** The headers were not too large when their size was reset; a pause in an earlier call may have lost some of the
        first. */
    ghost predicate ResetsLow(d: Head)
      reads `hdr, `paused
    {
      d.restarted ==> d.most <= MAX_HEADER_SIZE && (paused || hdr + d.first <= MAX_HEADER_SIZE)
    }

    /** They are not too large now. */
    ghost predicate Low(d: Head)
      reads `hdr, `paused
    {
      ResetsLow(d) && ((paused && !d.restarted) || SizeOf(d, d.bytes) <= MAX_HEADER_SIZE)
    }

    lemma CountingIsLow(d: Head, s: State)
      requires Counting(d, s)
      ensures Low(d)
    {
    }

    /** In the middle of a call, with `bytes` bytes counted: `slack` says how far `nread` is from its bound. */
    ghost predicate Tally(d: Head, bytes: nat, slack: nat, lossy: bool)
      reads `nread, `hdr, `cuts, `paused
    {
      && ResetsLow(d)
      && nread <= MAX_HEADER_SIZE && nread + slack <= SizeOf(d, bytes) + CutsOf(d)
      && (lossy || (paused && !d.restarted) || SizeOf(d, bytes) <= nread)
    }

    /** A byte is about to be read in state `s`. */
    ghost predicate Counting(d: Head, s: State)
      reads `nread, `hdr, `cuts, `paused
    {
      Tally(d, d.Fetched(s), 1, false)
    }

    /** The headers of a call are larger than the limit, with one byte more for each cut and for this call. */
    ghost predicate TooLarge(d: Head)
      reads `hdr, `cuts
    {
      d.Size(hdr, cuts) > MAX_HEADER_SIZE
    }

    /** A header that is too large before the end of a call is too large at its end. */
    lemma StaysTooLarge(h: Handler, m: M, data: string, p: nat)
      requires p <= |data| && SizeOf(m.head, m.head.bytes) + CutsOf(m.head) > MAX_HEADER_SIZE
      ensures TooLarge(Run(h, m, data, p).m.head)
    {
      RunSize(h, m, data, p, hdr, cuts);
      hide Run;
    }

    ghost predicate Valid()
      reads this
    {
      && (errno == OK || errno == Paused ==> RegsOk(R()) && (state.ChunkSizeStart? ==> nread == 0))
      && CountOk()
    }

    /** Between calls the headers are not too large, unless a pause has lost some of their bytes. */
    lemma StillLow()
      requires Valid() && errno in {OK, Paused}
      ensures !paused ==> hdr <= MAX_HEADER_SIZE
    {
    }

    /** `http_parser_init` */
    constructor (t: ParserType)
      ensures Valid() && View() == Init(t) && hdr == cuts == 0 && !paused
    {
      ptype, flags, hstate, index, lenient := t, NO_FLAGS, General, 0, false;
      state := match t { case Request => StartReq case Response => StartRes case Both => StartReqOrRes };
      nread, clen, major, minor, status, meth, errno, upgrade := 0, 0, 0, 0, 0, DELETE, OK, false;
      trace := [];
      hdr, cuts, paused := 0, 0, false;
    }

    /** `http_parser_pause` on a parser without an error. */
    method Pause(pause: bool)
      requires Valid() && errno in {OK, Paused}
      modifies `errno
      ensures Valid() && View() == SetPaused(old(View()), pause)
      ensures errno == if pause then Paused else OK
    {
      errno := if pause then Paused else OK;
    }

    method Load(r: Regs)
      modifies `ptype, `flags, `state, `hstate, `index, `lenient, `clen, `major, `minor, `status, `meth, `errno,
               `upgrade
      ensures R() == r
    {
      ptype, flags, state, hstate, index, lenient := r.ptype, r.flags, r.state, r.hstate, r.index, r.lenient;
      clen, major, minor, status, meth := r.clen, r.major, r.minor, r.status, r.meth;
      errno, upgrade := r.errno, r.upgrade;
    }

    /** `CALLBACK_NOTIFY`, and the call of `on_headers_complete`. */
    method Notify(h: Handler, n: Note)
      modifies `trace, `errno, `upgrade, `flags
      ensures R() == AfterNote(old(R()), n, h(trace)) && trace == old(trace) + [EventOf(n, old(R()))]
    {
      trace := trace + [EventOf(n, R())];
      var a := h(trace);
      if n.OnHeadersComplete? && a.code in {0, 1, 2} {
        if a.code == 2 {
          upgrade := true;
        }
        if a.code != 0 {
          flags := flags.(skipBody := true);
        }
        errno := if a.pause then Paused else OK;
      } else if a.code != 0 {
        errno := NoteErrno(n);
      } else {
        errno := if a.pause then Paused else OK;
      }
    }

    /** `CALLBACK_DATA` for the mark of kind `k`, up to `data[end]`. */
    method Emit(h: Handler, k: DataKind, marks: Marks, data: string, end: nat) returns (marks': Marks)
      requires marks.Get(k) <= end <= |data|
      modifies `trace, `errno
      ensures old(trace) <= trace
      ensures marks.Get(k) < 0 ==> marks' == marks && R() == old(R()) && trace == old(trace) && errno == old(errno)
      ensures errno == HeaderOverflow ==> old(errno) == HeaderOverflow
      ensures marks.Get(k) >= 0 ==>
                && marks' == marks.Put(k, NULL)
                && trace == old(trace) + [Data(k, data[marks.Get(k)..end])]
                && R() == AfterData(old(R()), k, h(trace))
    {
      marks' := marks;
      if marks.Get(k) >= 0 {
        trace := trace + [Data(k, data[marks.Get(k)..end])];
        var a := h(trace);
        errno := if a.code != 0 then DataErrno(k) else if a.pause then Paused else OK;
        marks' := marks.Put(k, NULL);
      }
    }

    /** `COUNT_HEADER_SIZE`, with `bytes` bytes counted before. */
    method Count(n: nat, ghost d: Head, ghost bytes: nat)
      requires Tally(d, bytes, 1, false) && errno == OK && n < TWO_32 - MAX_HEADER_SIZE
      modifies `nread, `errno
      ensures nread == old(nread) + n
      ensures errno == if nread > MAX_HEADER_SIZE then HeaderOverflow else OK
      ensures errno == OK ==> Tally(d, bytes + n, 1, false)
      ensures errno != OK ==> SizeOf(d, bytes + n) + CutsOf(d) > MAX_HEADER_SIZE + 1
    {
      nread := (nread + n) % TWO_32;
      if nread > MAX_HEADER_SIZE {
        errno := HeaderOverflow;
      }
    }

    /** The inner loop over the bytes of a header name. */
    method ReadName(data: string, p: nat) returns (q: nat)
      requires p < |data|
      modifies `hstate, `index
      ensures p <= q <= |data| && AllTokens(data, p, q) && (q < |data| ==> !IsToken(data[q]))
      ensures (hstate, index) == NameFold(old(hstate), old(index), data, p, q)
    {
      q := p;
      while q < |data| && IsToken(data[q])
        invariant p <= q <= |data| && AllTokens(data, p, q)
        invariant (hstate, index) == NameFold(old(hstate), old(index), data, p, q)
      {
        var (hs, i) := FieldNext(hstate, index, TokenLower(data[q]));
        hstate, index := hs, i;
        q := q + 1;
      }
    }

    /** `memchr` */
    method MemChr(data: string, from: nat, limit: nat, c: char) returns (i: int)
      requires from + limit <= |data|
      ensures i == NULL ==> forall k :: from <= k < from + limit ==> data[k] != c
      ensures i != NULL ==> from <= i < from + limit && data[i] == c && forall k :: from <= k < i ==> data[k] != c
    {
      i := from;
      while i < from + limit
        invariant from <= i <= from + limit
        invariant forall k :: from <= k < i ==> data[k] != c
      {
        if data[i] == c {
          return;
        }
        i := i + 1;
      }
      i := NULL;
    }

    /** The position of the first CR or LF, or the end of the buffer; only the first
        MAX_HEADER_SIZE bytes are looked at. */
    method LineEnd(data: string, from: nat) returns (q: nat)
      requires from < |data|
      ensures from <= q <= |data|
      ensures q < |data| ==> data[q] == CR || data[q] == LF
      ensures NoLineEnd(data, from, Looked(from, q)) && (q < |data| ==> Looked(from, q) == q)
    {
      var limit := if |data| - from < MAX_HEADER_SIZE then |data| - from else MAX_HEADER_SIZE;
      var cr := MemChr(data, from, limit, CR);
      var lf := MemChr(data, from, limit, LF);
      if cr != NULL {
        q := if lf != NULL && cr >= lf then lf else cr;
      } else if lf != NULL {
        q := lf;
      } else {
        q := |data|;
      }
    }

    /** The inner loop over the bytes of a header value: every byte is looked at up to `g`, where a value
        of no interest is searched for its end. It stops at the end of the line or of the buffer, or at
        a byte that fails (`bad`). */
    method ReadValue(data: string, p: nat) returns (q: nat, bad: bool, ghost g: nat)
      requires p < |data| && errno == OK
      modifies `hstate, `index, `flags, `clen, `errno
      ensures p <= g <= q <= |data| && Watched(old(R()), data, p, g)
      ensures !bad ==> R() == ValueFold(old(R()), data, p, g)
      ensures g < q ==> Searched(ValueFold(old(R()), data, p, g), lenient, data, g, q)
      ensures !bad ==> errno == OK && (q == |data| || data[q] == CR || data[q] == LF)
      ensures bad ==> q == g < |data| && data[q] != CR && data[q] != LF && errno != OK
                      && errno == ValueFailure(ValueFold(old(R()), data, p, g), lenient, data[q])
    {
      hide IsHeaderChar, ValueNext, ValueFold;
      var r := R();
      ghost var r0 := R();
      ValueFoldNone(r0, data, p);
      q, bad, g := p, false, p;
      var e := OK;
      while q < |data| && data[q] != CR && data[q] != LF && !bad
        invariant p <= g <= q <= |data| && Watched(r0, data, p, g) && r == ValueFold(r0, data, p, g)
        invariant g < q ==> Searched(r, lenient, data, g, q) && (q == |data| || data[q] == CR || data[q] == LF)
        invariant bad ==> q == g < |data| && data[q] != CR && data[q] != LF
                          && e == ValueFailure(r, lenient, data[q]) && e != OK
        invariant !bad ==> e == OK
        invariant r == r0.(hstate := r.hstate, index := r.index, flags := r.flags, clen := r.clen)
        decreases |data| - q, !bad
      {
        e := ValueFailure(r, lenient, data[q]);
        if e != OK {
          bad := true;
        } else if r.hstate.General? {
          g := q;
          q := LineEnd(data, q);
        } else {
          WatchOne(r0, data, p, q);
          r := ValueNext(r, data[q]);
          q := q + 1;
          g := q;
        }
      }
      hstate, index, flags, clen, errno := r.hstate, r.index, r.flags, r.clen, e;
    }

    /** The callback of a pass. */
    method Callback(h: Handler, cb: HttpAutomaton.Callback, data: string, p: nat, marks: Marks,
                    ghost m: M)
      returns (marks': Marks)
      requires p < |data| && R() == m.r && trace == m.trace && Covers(marks, m.span, data, p)
      requires cb.Flush? && m.span.Marked? ==> m.span.kind == cb.kind
      modifies `errno, `upgrade, `flags, `trace
      ensures old(trace) <= trace
      ensures var m' := Fire(h, m, cb, data[p]);
              R() == m'.r && trace == m'.trace && Covers(marks', m'.span, data, p) && errno == m'.r.errno
    {
      hide AfterNote, AfterData, EventOf;
      marks' := marks;
      match cb {
        case Quiet =>
        case Notify(n) => Notify(h, n);
        case Flush(k, last) =>
          CoversFlush(marks', m.span, k, data, p, last);
          marks' := Emit(h, k, marks', data, if last then p + 1 else p);
      }
    }

    /** `MARK`, a callback, and the end of the pass through the switch. */
    method Perform(h: Handler, a: Act, data: string, p: nat, marks: Marks, ghost m: M)
      returns (marks': Marks, next: Continue)
      requires p < |data| && MOk(m) && trace == m.trace && Covers(marks, m.span, data, p)
      requires ActOk(m.r.state, a) && MarksOk(m.r.state, a, m.span)
      modifies `ptype, `flags, `state, `hstate, `index, `lenient, `clen, `major, `minor, `status, `meth, `errno,
               `upgrade, `trace
      ensures old(trace) <= trace
      ensures var s := Apply(h, m, a, data[p]);
              R() == s.m.r && trace == s.m.trace && Follows(s, marks', next, data, p)
    {
      hide RegsOk, SpanOk, Searching, Fire, Covers, MOk, RuleOf;
      marks' := marks;
      match a {
        case Fail(r, e) =>
          Load(r);
          errno := e;
          next := Return(false);
        case Go(r, mark, cb, move) =>
          Load(r);
          if mark.Open? && marks.Get(mark.kind) < 0 {
            marks' := marks.Put(mark.kind, p);
          }
          CoversOpen(marks, m.span, mark, data, p);
          ghost var m1 := MovedTo(m, r, mark, data[p]);
          marks' := Callback(h, cb, data, p, marks', m1);
          ghost var m2 := Fire(h, m1, cb, data[p]);
          CoversConsume(marks', m2, data, p);
          next := if errno != OK then Return(!move.Reread?)
                  else match move { case Advance => Consumed case Reread => ReadAgain case Leave => Return(true) };
      }
    }

    /** The object and the marks stand for `m` when the current byte is `data[p]`. */
    ghost predicate Tracks(m: M, marks: Marks, data: string, p: nat)
      reads `ptype, `flags, `state, `hstate, `index, `lenient, `clen, `major, `minor, `status, `meth, `errno, `upgrade,
            `trace
    {
      && R() == m.r && trace == m.trace && Covers(marks, m.span, data, p) && MOk(m)
      && (m.head.begun ==> !TakesBody(m.r.state))
    }

    /** The call has ended like `o`. */
    ghost predicate Stopped(o: Outcome, n: nat)
      reads `ptype, `flags, `state, `hstate, `index, `lenient, `clen, `major, `minor, `status, `meth, `errno, `upgrade,
            `trace
    {
      && o.stopped && n == o.at && trace == o.m.trace && errno == o.m.r.errno
      && (errno in {OK, Paused} ==> R() == o.m.r)
    }

    /** The call has been given up because a header is too large. */
    ghost predicate Overflowed(o: Outcome)
      reads `errno, `trace, `hdr, `cuts
    {
      && errno == HeaderOverflow && trace <= o.m.trace && TooLarge(o.m.head)
    }

    /** One pass through the switch, at `q`, has turned `m` at `data[p]` into `m'`. */
    ghost predicate Passed(h: Handler, m: M, data: string, p: nat, q: nat, next: Continue, marks: Marks, m': M)
      requires p <= q < |data|
      reads `ptype, `flags, `state, `hstate, `index, `lenient, `clen, `major, `minor, `status, `meth, `errno, `upgrade,
            `trace, `hdr, `cuts
    {
      match next
      case Consumed => Tracks(m', marks, data, q + 1) && Run(h, m, data, p) == Run(h, m', data, q + 1)
      case ReadAgain =>
        Tracks(m', marks, data, q) && Run(h, m, data, p) == Run(h, m', data, q)
        && Rank(m'.r.state) < Rank(m.r.state)
      case Return(used) => Stopped(Run(h, m, data, p), if used then q + 1 else q) || Overflowed(Run(h, m, data, p))
    }

    /** One pass that handles a single byte. */
    method PassOne(h: Handler, data: string, p: nat, marks: Marks, ghost m: M)
      returns (marks': Marks, next: Continue, ghost m': M)
      requires p < |data| && Tracks(m, marks, data, p)
      requires state.HeaderValue? ==> data[p] == CR || data[p] == LF
      modifies `ptype, `flags, `state, `hstate, `index, `lenient, `clen, `major, `minor, `status, `meth, `errno,
               `upgrade, `trace
      ensures old(trace) <= trace
      ensures Passed(h, m, data, p, p, next, marks', m')
      ensures next.Return? ==> Stopped(Run(h, m, data, p), if next.used then p + 1 else p)
      ensures errno != HeaderOverflow && (next == Return(false) ==> errno != OK)
      ensures !next.Return? ==> !m'.skip && errno == OK
      ensures state.ChunkSizeStart? && errno in {OK, Paused} ==> Resets(old(state), data[p]) && !next.ReadAgain?
      ensures Heads(m, data[p], next, errno, if next.Return? then Run(h, m, data, p).m else m')
      ensures var s := Do(h, m, data[p]);
              && errno == s.m.r.errno && (next.Consumed? <==> s.Next?) && (next.ReadAgain? <==> s.Again?)
              && (next.Return? ==> Run(h, m, data, p).m == s.m)
    {
      ghost var s := Do(h, m, data[p]);
      HeadsAfter(h, m, data[p]);
      TransitionOk(m, data[p]);
      DoOk(h, m, data[p]);
      SpecStep(h, m, data, p);
      EntersChunkSize(h, m, data[p]);
      SkipIrrelevant(h, m, data[p]);
      NeverOverflows(h, m, data[p]);
      hide MOk, RegsOk, SpanOk, Transition, ActOk, MarksOk, Do, Run;
      marks', next := Perform(h, Transition(R(), data[p], false), data, p, marks, m);
      m' := s.m;
    }

    /** The callback at the end of a header value has paused the parser: at a CR this loses bytes of the count. */
    predicate Loses(s: State, e: Errno) {
      e == Paused && s.HeaderAlmostDone?
    }

    /** The header size between two passes; `m` is what the pass came to, and `atEnd` says that the buffer has
        ended, where a name or a value has counted its last byte twice. */
    ghost predicate Counted(next: Continue, m: M, atEnd: bool)
      reads `errno, `nread, `hdr, `cuts, `paused
    {
      match next
      case Consumed => !m.head.begun && Tally(m.head, m.head.bytes, if atEnd then Slack(m.r.state, OK) else 1, false)
      case ReadAgain => Counting(m.head, m.r.state)
      case Return(_) => errno in {OK, Paused} ==> Tally(m.head, m.head.bytes, Slack(m.r.state, errno),
                                                        Loses(m.r.state, errno))
    }

    /** One byte has been looked at. */
    lemma OneCounted(m: M, ch: char, next: Continue, m': M)
      requires Heads(m, ch, next, errno, m') && (next == Return(false) ==> errno != OK)
      requires if Resets(m.r.state, ch) then nread == 0 && Low(m.head) else Counting(m.head, m.r.state)
      ensures Counted(next, m', false)
    {
    }

    /** One such pass, and the header size. */
    method PassCounted(h: Handler, data: string, p: nat, marks: Marks, ghost m: M)
      returns (marks': Marks, next: Continue, ghost m': M)
      requires p < |data| && Tracks(m, marks, data, p)
      requires state.HeaderValue? ==> data[p] == CR || data[p] == LF
      requires if Resets(state, data[p]) then nread == 0 && Low(m.head) else Counting(m.head, m.r.state)
      modifies `ptype, `flags, `state, `hstate, `index, `lenient, `clen, `major, `minor, `status, `meth, `errno,
               `upgrade, `trace
      ensures old(trace) <= trace && errno != HeaderOverflow
      ensures Passed(h, m, data, p, p, next, marks', m')
      ensures !next.Return? ==> !m'.skip
      ensures state.ChunkSizeStart? && errno in {OK, Paused} ==> Resets(old(state), data[p]) && !next.ReadAgain?
      ensures Counted(next, if next.Return? then Run(h, m, data, p).m else m', false)
    {
      hide Run, MOk, Covers, RegsOk, Rank, Passed, Counted, Tally, Stopped, Heads, Resets;
      TracksMeans(m, marks, data, p);
      marks', next, m' := PassOne(h, data, p, marks, m);
      OneCounted(m, data[p], next, if next.Return? then Run(h, m, data, p).m else m');
    }

    /** The bytes of a header name up to the colon or the end of the buffer; they are counted. */
    method RunName(h: Handler, data: string, p: nat, marks: Marks, ghost m: M) returns (q: nat, ghost m': M)
      requires p < |data| < TWO_32 - MAX_HEADER_SIZE
      requires Tracks(m, marks, data, p) && !m.skip && state.HeaderField? && Counting(m.head, state)
      modifies `hstate, `index, `errno, `nread
      ensures p <= q <= |data|
      ensures errno == OK || (errno == HeaderOverflow && TooLarge(Run(h, m, data, p).m.head))
      ensures m'.r.state.HeaderField? && !m'.skip && Run(h, m, data, p) == Run(h, m', data, q)
      ensures errno == OK ==>
                Tracks(m', marks, data, q) && Counting(m'.head, m'.r.state) && (q == |data| ==> !m'.head.begun)
    {
      hide Run, MOk, NameFold, IsToken, Covers, RegsOk;
      InHeader(m);
      q := ReadName(data, p);
      m' := NameRead(m, data, p, q);
      NameSkip(h, m, data, p, q);
      CoversExtend(marks, m.span, data, p, q);
      Count(q - p, m.head, m.head.bytes + 1);
      if errno != OK {
        StaysTooLarge(h, m', data, q);
      }
    }

    /** s_header_field */
    method PassName(h: Handler, data: string, p: nat, marks: Marks, ghost m: M)
      returns (q: nat, marks': Marks, next: Continue, ghost m': M)
      requires p < |data| < TWO_32 - MAX_HEADER_SIZE
      requires Tracks(m, marks, data, p) && !m.skip && state.HeaderField? && Counting(m.head, state)
      modifies `ptype, `flags, `state, `hstate, `index, `lenient, `clen, `major, `minor, `status, `meth, `errno,
               `upgrade, `trace, `nread
      ensures old(trace) <= trace
      ensures p <= q < |data| && Passed(h, m, data, p, q, next, marks', m')
      ensures next.ReadAgain? || (next.Consumed? && q + 1 < |data|) ==> !m'.skip
      ensures errno in {OK, Paused} ==> !state.ChunkSizeStart?
      ensures Counted(next, if next.Return? then Run(h, m, data, p).m else m', next.Consumed? && q + 1 == |data|)
    {
      hide Run, MOk, Covers, Rank;
      RunTrace(h, m, data, p);
      ghost var m1;
      q, m1 := RunName(h, data, p, marks, m);
      marks', next, m' := marks, Consumed, m1;
      if errno != OK {
        q, next := p, Return(false);
      } else if q == |data| {
        q := q - 1;
      } else {
        marks', next, m' := PassCounted(h, data, q, marks, m1);
      }
    }

    /** The callback for the end of a body of known length. */
    method EndBody(h: Handler, data: string, q: nat, marks: Marks, ghost m: M, ghost bytes: string)
      returns (marks': Marks, next: Continue, ghost m': M)
      requires R() == m.r.(clen := 0, state := MessageDone) && trace == m.trace && m.r.errno == OK
      requires 0 <= marks.body <= q + 1 <= |data| && data[marks.body..q + 1] == bytes
               && marks.Put(Body, NULL) == NO_MARKS
      modifies `errno, `trace
      ensures m' == BodyDone(h, m, bytes) && R() == m'.r && trace == m'.trace && marks' == NO_MARKS && m'.head == m.head
      ensures old(trace) <= trace && m'.span.NoSpan? && !m'.skip && m'.r.state.MessageDone? && errno != HeaderOverflow
      ensures next == if errno != OK then Return(false) else ReadAgain
    {
      m' := BodyDone(h, m, bytes);
      marks' := Emit(h, Body, marks, data, q + 1);
      next := if errno != OK then Return(false) else ReadAgain;
    }

    /** s_body_identity: as many bytes as the body and the buffer have. */
    method PassBody(h: Handler, data: string, p: nat, marks: Marks, ghost m: M)
      returns (q: nat, marks': Marks, next: Continue, ghost m': M)
      requires p < |data| && Tracks(m, marks, data, p) && state.BodyIdentity?
      modifies `clen, `state, `errno, `trace
      ensures old(trace) <= trace
      ensures p <= q < |data| && Passed(h, m, data, p, q, next, marks', m')
      ensures !next.Return? ==> !m'.skip
      ensures !state.ChunkSizeStart? && errno != HeaderOverflow
      ensures (if next.Return? then Run(h, m, data, p).m else m').head == m.head
      ensures next.ReadAgain? ==> m'.r.state.MessageDone?
    {
      hide Run, MOk, Covers, Passed;
      LengthKnown(m);
      assert clen != 0 && clen != NO_LENGTH;
      var toRead := if clen < |data| - p then clen else |data| - p;
      if toRead == clen {
        q, marks', next, m' := PassBodyEnd(h, data, p, toRead, marks, m);
      } else {
        q, marks', next, m' := PassBodyPart(h, data, p, toRead, marks, m);
      }
    }

    method PassBodyEnd(h: Handler, data: string, p: nat, toRead: nat, marks: Marks, ghost m: M)
      returns (q: nat, marks': Marks, next: Continue, ghost m': M)
      requires p < |data| && Tracks(m, marks, data, p) && state.BodyIdentity? && 0 < toRead == clen <= |data| - p
      modifies `clen, `state, `errno, `trace
      ensures old(trace) <= trace
      ensures p <= q < |data| && Passed(h, m, data, p, q, next, marks', m')
      ensures !next.Return? ==> !m'.skip
      ensures !state.ChunkSizeStart? && errno != HeaderOverflow
      ensures (if next.Return? then Run(h, m, data, p).m else m').head == m.head
      ensures next.ReadAgain? ==> m'.r.state.MessageDone?
    {
      hide Run, MOk, Covers, Rank, BodyDone, BodyRead, Behind, Passed;
      LengthKnown(m);
      CoversBody(marks, m.span, data, p, toRead);
      marks' := if marks.body < 0 then marks.(body := p) else marks;
      clen := clen - toRead;
      q := p + toRead - 1;
      state := MessageDone;
      BodyFinish(h, m, data, p);
      marks', next, m' := EndBody(h, data, q, marks', m, Behind(m.span) + data[p..p + toRead]);
      CoversNothing(m'.span, data, q);
      BodyEnded(h, m, data, p, q, next, marks', m');
    }

    lemma BodyEnded(h: Handler, m: M, data: string, p: nat, q: nat, next: Continue, marks: Marks, m': M)
      requires p <= q < |data| && m.r.state.BodyIdentity? && m'.r.state.MessageDone? && m'.head == m.head
      requires R() == m'.r && trace == m'.trace && Covers(marks, m'.span, data, q) && (errno == OK ==> MOk(m'))
      requires Run(h, m, data, p) == if errno != OK then Outcome(m', q, true) else Run(h, m', data, q)
      requires next == if errno != OK then Return(false) else ReadAgain
      ensures Passed(h, m, data, p, q, next, marks, m')
      ensures (if next.Return? then Run(h, m, data, p).m else m').head == m.head
    {
      hide Run, MOk, Covers;
    }

    method PassBodyPart(h: Handler, data: string, p: nat, toRead: nat, marks: Marks, ghost m: M)
      returns (q: nat, marks': Marks, next: Continue, ghost m': M)
      requires p < |data| && Tracks(m, marks, data, p) && state.BodyIdentity? && 0 < toRead < clen
               && toRead <= |data| - p
      modifies `clen, `state, `errno, `trace
      ensures old(trace) <= trace
      ensures p <= q < |data| && Passed(h, m, data, p, q, next, marks', m')
      ensures !next.Return? ==> !m'.skip
      ensures !state.ChunkSizeStart? && errno != HeaderOverflow
      ensures (if next.Return? then Run(h, m, data, p).m else m').head == m.head
      ensures next.ReadAgain? ==> m'.r.state.MessageDone?
    {
      hide Run, MOk, Covers, Rank, BodyDone, BodyRead, Behind;
      LengthKnown(m);
      CoversBody(marks, m.span, data, p, toRead);
      marks' := if marks.body < 0 then marks.(body := p) else marks;
      clen := clen - toRead;
      q := p + toRead - 1;
      BodySkip(h, m, data, p, toRead);
      m' := BodyRead(m, data, p, toRead);
      BodyReadIs(m, data, p, toRead);
      next := Consumed;
    }

    /** s_chunk_data: as many bytes as the chunk and the buffer have. */
    method PassChunk(h: Handler, data: string, p: nat, marks: Marks, ghost m: M)
      returns (q: nat, marks': Marks, next: Continue, ghost m': M)
      requires p < |data| && Tracks(m, marks, data, p) && state.ChunkData?
      modifies `clen, `state
      ensures p <= q < |data| && next == Consumed && Passed(h, m, data, p, q, next, marks', m')
      ensures !m'.skip && !state.ChunkSizeStart? && m'.head == m.head
    {
      hide Run, MOk, Covers, BodyRead, Behind, Rank;
      LengthKnown(m);
      assert clen != 0 && clen != NO_LENGTH;
      var toRead := if clen < |data| - p then clen else |data| - p;
      CoversBody(marks, m.span, data, p, toRead);
      BodyReadIs(m, data, p, toRead);
      ChunkSkip(h, m, data, p, toRead);
      marks' := if marks.body < 0 then marks.(body := p) else marks;
      clen := clen - toRead;
      q, next := p + toRead - 1, Consumed;
      m' := BodyRead(m, data, p, toRead);
      if clen == 0 {
        state := ChunkDataAlmostDone;
        m' := m'.(r := m'.r.(state := ChunkDataAlmostDone));
      }
    }

    /** s_body_identity_eof */
    method PassEof(h: Handler, data: string, p: nat, marks: Marks, ghost m: M)
      returns (q: nat, marks': Marks, next: Continue, ghost m': M)
      requires p < |data| && Tracks(m, marks, data, p) && state.BodyIdentityEof?
      ensures p <= q < |data| && Passed(h, m, data, p, q, next, marks', m')
      ensures next == Consumed && q + 1 == |data| && m'.head == m.head
    {
      hide Run, MOk, Covers;
      LengthKnown(m);
      EofSkip(h, m, data, p);
      CoversBody(marks, m.span, data, p, |data| - p);
      marks' := if marks.body < 0 then marks.(body := p) else marks;
      q, next := |data| - 1, Consumed;
      m' := m.(span := Marked(Body, Behind(m.span) + data[p..]));
      assert data[p..p + (|data| - p)] == data[p..];
    }

    /** The line end behind `n` bytes of a header value; they are counted after the callback at a CR,
        and before it at a LF. `bytes` are counted already. */
    method PassLineEnd(h: Handler, data: string, q: nat, n: nat, ghost bytes: nat, marks: Marks, ghost m: M)
      returns (marks': Marks, next: Continue, ghost m': M)
      requires q < |data| < TWO_32 - MAX_HEADER_SIZE && n <= q
      requires Tracks(m, marks, data, q) && state.HeaderValue? && (data[q] == CR || data[q] == LF)
      requires Tally(m.head, bytes, 1, false) && bytes + n == m.head.bytes + 1
      modifies `ptype, `flags, `state, `hstate, `index, `lenient, `clen, `major, `minor, `status, `meth, `errno,
               `upgrade, `trace, `nread
      ensures old(trace) <= trace
      ensures Passed(h, m, data, q, q, next, marks', m')
      ensures !next.Return? ==> !m'.skip
      ensures errno in {OK, Paused} ==> !state.ChunkSizeStart?
      ensures Counted(next, if next.Return? then Run(h, m, data, q).m else m', false)
    {
      hide Tracks, Passed, Counting, Counted, Run;
      if data[q] == CR {
        marks', next, m' := PassCr(h, data, q, n, bytes, marks, m);
      } else {
        marks', next, m' := PassLf(h, data, q, n, bytes, marks, m);
      }
    }

    lemma ReturnedOne(h: Handler, m: M, data: string, q: nat, next: Continue, marks: Marks, m': M)
      requires q < |data| && next.Return? && Stopped(Run(h, m, data, q), if next.used then q + 1 else q)
      ensures Passed(h, m, data, q, q, next, marks, m')
    {
      hide Run;
    }

    lemma ReturnedLarge(h: Handler, m: M, data: string, q: nat, marks: Marks, m': M)
      requires q < |data| && errno == HeaderOverflow && TooLarge(Run(h, m, data, q).m.head)
      requires trace <= Run(h, m, data, q).m.trace
      ensures Passed(h, m, data, q, q, Return(false), marks, m')
      ensures Counted(Return(false), Run(h, m, data, q).m, false)
    {
      hide Run;
    }

    lemma CountsAsRead(m: M, bytes: nat)
      requires m.r.state.HeaderValue? && bytes == m.head.bytes + 1
      ensures bytes == m.head.Fetched(m.r.state) && !Resets(m.r.state, LF)
    {
    }

    /** At the end of a value `n` of its bytes are not yet counted. */
    lemma CrCounted(m: M, bytes: nat, n: nat, next: Continue, m': M)
      requires Heads(m, CR, next, errno, m') && m.r.state.HeaderValue?
      requires Tally(m.head, bytes, 1, false) && bytes + n == m.head.bytes + 1
      requires next.Consumed? || (next.Return? && errno != OK && m'.r.state.HeaderAlmostDone?)
      ensures if next.Return? then Counted(next, m', false)
              else !m'.head.begun && bytes + n == m'.head.bytes && Tally(m'.head, bytes, 1, false)
    {
    }

    method PassCr(h: Handler, data: string, q: nat, n: nat, ghost bytes: nat, marks: Marks, ghost m: M)
      returns (marks': Marks, next: Continue, ghost m': M)
      requires q < |data| < TWO_32 - MAX_HEADER_SIZE && n <= q
      requires Tracks(m, marks, data, q) && state.HeaderValue? && data[q] == CR
      requires Tally(m.head, bytes, 1, false) && bytes + n == m.head.bytes + 1
      modifies `ptype, `flags, `state, `hstate, `index, `lenient, `clen, `major, `minor, `status, `meth, `errno,
               `upgrade, `trace, `nread
      ensures old(trace) <= trace
      ensures Passed(h, m, data, q, q, next, marks', m')
      ensures !next.Return? ==> !m'.skip
      ensures errno in {OK, Paused} ==> !state.ChunkSizeStart?
      ensures Counted(next, if next.Return? then Run(h, m, data, q).m else m', false)
    {
      hide Run, MOk, Covers, RegsOk, Rank, Passed, Stopped, Heads, Tally, Counted, Do;
      TracksMeans(m, marks, data, q);
      CrMoves(h, m, CR);
      marks', next, m' := PassOne(h, data, q, marks, m);
      CrCounted(m, bytes, n, next, if next.Return? then Run(h, m, data, q).m else m');
      if next.Return? {
        ReturnedOne(h, m, data, q, next, marks', m');
      } else {
        next := CountBehind(h, data, q, n, bytes, marks', next, m, m');
      }
    }

    /** The bytes of the value are counted after the callback. */
    method CountBehind(h: Handler, data: string, q: nat, n: nat, ghost bytes: nat, marks: Marks, next: Continue,
                       ghost m: M, ghost m': M)
      returns (next': Continue)
      requires q < |data| < TWO_32 - MAX_HEADER_SIZE && n <= q
      requires Passed(h, m, data, q, q, next, marks, m') && next.Consumed?
      requires !m'.head.begun && bytes + n == m'.head.bytes && Tally(m'.head, bytes, 1, false)
      modifies `errno, `nread
      ensures Passed(h, m, data, q, q, next', marks, m') && next' == if errno == OK then next else Return(false)
      ensures errno in {OK, HeaderOverflow} && Counted(next', if next'.Return? then Run(h, m, data, q).m else m', false)
    {
      hide Run, MOk, Covers, RegsOk, Rank;
      InHeaderNext(next, m');
      RunTrace(h, m', data, if next.Consumed? then q + 1 else q);
      Count(n, m'.head, bytes);
      next' := if errno == OK then next else Return(false);
      if errno != OK {
        StaysTooLarge(h, m', data, q + 1);
      }
    }

    method PassLf(h: Handler, data: string, q: nat, n: nat, ghost bytes: nat, marks: Marks, ghost m: M)
      returns (marks': Marks, next: Continue, ghost m': M)
      requires q < |data| < TWO_32 - MAX_HEADER_SIZE && n <= q
      requires Tracks(m, marks, data, q) && state.HeaderValue? && data[q] == LF
      requires Tally(m.head, bytes, 1, false) && bytes + n == m.head.bytes + 1
      modifies `ptype, `flags, `state, `hstate, `index, `lenient, `clen, `major, `minor, `status, `meth, `errno,
               `upgrade, `trace, `nread
      ensures old(trace) <= trace
      ensures Passed(h, m, data, q, q, next, marks', m')
      ensures !next.Return? ==> !m'.skip
      ensures errno in {OK, Paused} ==> !state.ChunkSizeStart?
      ensures Counted(next, if next.Return? then Run(h, m, data, q).m else m', false)
    {
      hide Run, MOk, Covers, RegsOk, Rank, Passed, Counted, Tally, TooLarge, Stopped;
      TracksMeans(m, marks, data, q);
      CountsAsRead(m, bytes + n);
      RunTrace(h, m, data, q);
      marks', next, m' := marks, Return(false), m;
      Count(n, m.head, bytes);
      if errno != OK {
        StaysTooLarge(h, m, data, q);
        ReturnedLarge(h, m, data, q, marks, m');
      } else {
        marks', next, m' := PassCounted(h, data, q, marks, m);
      }
    }

    /** The bytes of a header value up to the line end, to the end of the buffer, or to a byte that fails. If the search
        for the line end has been given up, the value has at least as many bytes as the limit, up to `q1`. */
    method RunValue(h: Handler, data: string, p: nat, marks: Marks, ghost m: M)
      returns (q: nat, bad: bool, ghost m': M, ghost q1: nat)
      requires p < |data| < TWO_32 - MAX_HEADER_SIZE
      requires Tracks(m, marks, data, p) && !m.skip && state.HeaderValue?
      modifies `hstate, `index, `flags, `clen, `errno
      ensures p <= q <= |data|
      ensures bad ==> q < |data| && Stopped(Run(h, m, data, p), q) && errno != OK && errno != Paused
      ensures errno != HeaderOverflow && (!bad ==> errno == OK && (q < |data| ==> data[q] == CR || data[q] == LF))
      ensures p <= q1 <= q && m'.head == m.head.Plus(q1 - p)
      ensures !bad ==>
                && Run(h, m, data, p) == Run(h, m', data, q1)
                && (q1 == q || (q == |data| && q1 - p >= MAX_HEADER_SIZE))
      ensures !bad && q1 == q ==> Tracks(m', marks, data, q)
    {
      hide Run, MOk, ValueFold, ValueNext, Covers, RegsOk, IsHeaderChar;
      InHeader(m);
      ghost var g: nat;
      q, bad, g := ReadValue(data, p);
      q1 := Looked(g, q);
      m' := ValueReached(m, data, p, g, q1);
      if bad {
        ValueFail(h, m, data, p, g);
      } else {
        SearchedPart(ValueFold(m.r, data, p, g), m.r.lenient, data, g, q);
        ValueReach(h, m, data, p, g, q1);
        CoversExtend(marks, m.span, data, p, q1);
      }
    }

    /** s_header_value */
    method PassValue(h: Handler, data: string, p: nat, marks: Marks, ghost m: M)
      returns (q: nat, marks': Marks, next: Continue, ghost m': M)
      requires p < |data| < TWO_32 - MAX_HEADER_SIZE
      requires Tracks(m, marks, data, p) && !m.skip && state.HeaderValue? && Counting(m.head, state)
      modifies `ptype, `flags, `state, `hstate, `index, `lenient, `clen, `major, `minor, `status, `meth, `errno,
               `upgrade, `trace, `nread
      ensures old(trace) <= trace
      ensures p <= q < |data| && Passed(h, m, data, p, q, next, marks', m')
      ensures next.ReadAgain? || (next.Consumed? && q + 1 < |data|) ==> !m'.skip
      ensures errno in {OK, Paused} ==> !state.ChunkSizeStart?
      ensures Counted(next, if next.Return? then Run(h, m, data, p).m else m', next.Consumed? && q + 1 == |data|)
    {
      hide Run, MOk, Covers, Rank, Tally;
      RunTrace(h, m, data, p);
      var bad: bool;
      ghost var m1, q1;
      q, bad, m1, q1 := RunValue(h, data, p, marks, m);
      TallyPlus(m.head, q1 - p, m.head.bytes + 1);
      marks', next, m' := marks, Consumed, m1;
      if bad {
        next := Return(false);
        return;
      }
      if q == |data| {
        next := ValueToEnd(h, data, p, marks, m, m1, q1);
        q := q - 1;
      } else {
        marks', next, m' := PassLineEnd(h, data, q, q - p, m.head.bytes + 1, marks, m1);
        CountedAtEnd(next, if next.Return? then Run(h, m, data, p).m else m', next.Consumed? && q + 1 == |data|);
      }
    }

    lemma TallyPlus(d: Head, n: nat, bytes: nat)
      requires Tally(d, bytes, 1, false)
      ensures Tally(d.Plus(n), bytes, 1, false)
    {
    }

    lemma CountedAtEnd(next: Continue, m: M, atEnd: bool)
      requires Counted(next, m, false)
      ensures Counted(next, m, atEnd)
    {
    }

    /** A value that goes on to the end of the buffer: `m1` is where it has been followed to, `data[q1]`. */
    method ValueToEnd(h: Handler, data: string, p: nat, marks: Marks, ghost m: M, ghost m1: M, ghost q1: nat)
      returns (next: Continue)
      requires p < |data| < TWO_32 - MAX_HEADER_SIZE && errno == OK && Tally(m.head, m.head.bytes + 1, 1, false)
      requires p <= q1 <= |data| && m1.head == m.head.Plus(q1 - p) && Run(h, m, data, p) == Run(h, m1, data, q1)
      requires if q1 == |data| then Tracks(m1, marks, data, q1) && state.HeaderValue? else q1 - p >= MAX_HEADER_SIZE
      requires trace <= Run(h, m, data, p).m.trace
      modifies `errno, `nread
      ensures next == (if errno == OK then Consumed else Return(false)) && errno in {OK, HeaderOverflow}
      ensures Passed(h, m, data, p, |data| - 1, next, marks, m1)
      ensures Counted(next, if next.Return? then Run(h, m, data, p).m else m1, next.Consumed?)
    {
      hide Run, MOk, Covers, Rank, RegsOk;
      Count(|data| - p, m.head, m.head.bytes + 1);
      next := if errno == OK then Consumed else Return(false);
      if errno != OK {
        StaysTooLarge(h, m1, data, q1);
      }
    }

    lemma TracksMeans(m: M, marks: Marks, data: string, p: nat)
      requires Tracks(m, marks, data, p)
      ensures errno == OK && state == m.r.state && (TakesBody(state) ==> !m.head.begun)
    {
    }

    /** Body bytes are not counted. */
    lemma BodyCounted(m: M, next: Continue, m': M, atEnd: bool)
      requires Counting(m.head, m.r.state) && TakesBody(m.r.state) && !m.head.begun && m'.head == m.head
      requires next.ReadAgain? ==> m'.r.state.MessageDone?
      ensures Counted(next, m', atEnd)
    {
    }

    /** One pass through the switch. */
    method Pass(h: Handler, data: string, p: nat, marks: Marks, ghost m: M)
      returns (q: nat, marks': Marks, next: Continue, ghost m': M)
      requires p < |data| < TWO_32 - MAX_HEADER_SIZE
      requires Tracks(m, marks, data, p) && !m.skip && Counting(m.head, state) && (state.ChunkSizeStart? ==> nread == 1)
      modifies `ptype, `flags, `state, `hstate, `index, `lenient, `clen, `major, `minor, `status, `meth, `errno,
               `upgrade, `trace, `nread
      ensures old(trace) <= trace
      ensures p <= q < |data| && Passed(h, m, data, p, q, next, marks', m')
      ensures next.ReadAgain? || (next.Consumed? && q + 1 < |data|) ==> !m'.skip
      ensures errno in {OK, Paused} && state.ChunkSizeStart? ==> nread == 0 && !next.ReadAgain?
      ensures Counted(next, if next.Return? then Run(h, m, data, p).m else m', next.Consumed? && q + 1 == |data|)
    {
      hide Run, MOk, Covers, RegsOk, Passed;
      TracksMeans(m, marks, data, p);
      hide Tracks;
      if state.HeaderField? {
        q, marks', next, m' := PassName(h, data, p, marks, m);
      } else if state.HeaderValue? {
        q, marks', next, m' := PassValue(h, data, p, marks, m);
      } else if state.BodyIdentity? {
        q, marks', next, m' := PassBody(h, data, p, marks, m);
        BodyCounted(m, next, if next.Return? then Run(h, m, data, p).m else m', q + 1 == |data|);
      } else if state.ChunkData? {
        q, marks', next, m' := PassChunk(h, data, p, marks, m);
        BodyCounted(m, next, m', q + 1 == |data|);
      } else if state.BodyIdentityEof? {
        q, marks', next, m' := PassEof(h, data, p, marks, m);
        BodyCounted(m, next, m', q + 1 == |data|);
      } else {
        if Resets(state, data[p]) {
          CountingIsLow(m.head, m.r.state);
          nread := 0;
        }
        q := p;
        marks', next, m' := PassCounted(h, data, p, marks, m);
      }
    }

    /** Between two bytes of a call. */
    ghost predicate Ready(m: M, marks: Marks, data: string, p: nat)
      reads `ptype, `flags, `state, `hstate, `index, `lenient, `clen, `major, `minor, `status, `meth, `errno, `upgrade,
            `trace
      reads `nread, `hdr, `cuts, `paused
    {
      && Tracks(m, marks, data, p) && errno == OK && !m.head.begun
      && Tally(m.head, m.head.bytes, if p < |data| then 1 else Slack(m.r.state, OK), false)
      && (p < |data| ==> !m.skip)
      && (state.ChunkSizeStart? ==> nread == 0)
    }

    /** A byte of a header is counted before it is looked at. */
    method CountByte(h: Handler, data: string, p: nat, marks: Marks, ghost m: M)
      requires p < |data| < TWO_32 - MAX_HEADER_SIZE && Ready(m, marks, data, p)
      modifies `nread, `errno
      ensures errno in {OK, HeaderOverflow} && !m.skip
      ensures errno == OK ==>
                Tracks(m, marks, data, p) && Counting(m.head, state) && (state.ChunkSizeStart? ==> nread == 1)
      ensures errno != OK ==> Overflowed(Run(h, m, data, p))
    {
      hide Run, MOk, Covers, RegsOk;
      if ParsingHeader(state) {
        Count(1, m.head, m.head.bytes);
        if errno != OK {
          RunTrace(h, m, data, p);
          StaysTooLarge(h, m, data, p);
        }
      }
    }

    /** One byte: it is counted, and then read until it is consumed. */
    method Byte(h: Handler, data: string, p: nat, marks: Marks, ghost m: M)
      returns (used: nat, marks': Marks, stopped: bool, ghost m': M)
      requires p < |data| < TWO_32 - MAX_HEADER_SIZE && Ready(m, marks, data, p)
      modifies `ptype, `flags, `state, `hstate, `index, `lenient, `clen, `major, `minor, `status, `meth, `errno,
               `upgrade, `trace, `nread
      ensures old(trace) <= trace
      ensures if stopped
              then && (Stopped(Run(h, m, data, p), used) || Overflowed(Run(h, m, data, p)))
                   && Counted(Return(true), Run(h, m, data, p).m, false)
                   && (errno in {OK, Paused} && state.ChunkSizeStart? ==> nread == 0)
              else p < used <= |data| && Ready(m', marks', data, used) && Run(h, m, data, p) == Run(h, m', data, used)
    {
      hide Run, MOk, Covers, RegsOk, Ready, Stopped, Tracks, R;
      var q := p;
      marks', stopped, m' := marks, false, m;
      CountByte(h, data, p, marks, m);
      if errno != OK {
        return p, marks, true, m;
      }
      TracksMeans(m, marks, data, p);
      var next := ReadAgain;
      while next.ReadAgain?
        invariant p <= q < |data| && !next.Return? && old(trace) <= trace
        invariant var at := if next.ReadAgain? then q else q + 1;
                  Tracks(m', marks', data, at) && Run(h, m, data, p) == Run(h, m', data, at)
        invariant Counted(next, m', next.Consumed? && q + 1 == |data|) && errno == OK
        invariant state == m'.r.state && (next.ReadAgain? || q + 1 < |data| ==> !m'.skip)
        invariant state.ChunkSizeStart? ==> nread == if next.ReadAgain? then 1 else 0
        decreases next.ReadAgain?, Rank(m'.r.state)
      {
        q, marks', next, m' := Pass(h, data, q, marks', m');
        if next.Return? {
          return if next.used then q + 1 else q, marks', true, m';
        }
        TracksMeans(m', marks', data, if next.ReadAgain? then q else q + 1);
      }
      used := q + 1;
      StaysReady(m', marks', data, used);
    }

    lemma StaysReady(m: M, marks: Marks, data: string, p: nat)
      requires p <= |data| && Tracks(m, marks, data, p) && errno == OK && Counted(Consumed, m, p == |data|)
      requires p < |data| ==> !m.skip
      requires state.ChunkSizeStart? ==> nread == 0
      ensures Ready(m, marks, data, p)
    {
      hide Tracks;
    }

    /** The loop over the buffer. */
    method Loop(h: Handler, data: string, marks: Marks, ghost m: M)
      returns (used: nat, marks': Marks, stopped: bool, ghost m': M)
      requires |data| < TWO_32 - MAX_HEADER_SIZE && Ready(m, marks, data, 0)
      modifies `ptype, `flags, `state, `hstate, `index, `lenient, `clen, `major, `minor, `status, `meth, `errno,
               `upgrade, `trace, `nread
      ensures old(trace) <= trace
      ensures Counted(Return(true), Run(h, m, data, 0).m, false)
      ensures errno in {OK, Paused} && state.ChunkSizeStart? ==> nread == 0
      ensures if stopped then Stopped(Run(h, m, data, 0), used) || Overflowed(Run(h, m, data, 0))
              else used == |data| && Tracks(m', marks', data, |data|) && Run(h, m, data, 0) == Run(h, m', data, |data|)
    {
      hide Run, MOk, Covers, RegsOk, Tracks;
      used, marks', stopped, m' := 0, marks, false, m;
      while used < |data|
        invariant old(trace) <= trace
        invariant used <= |data| && Ready(m', marks', data, used) && Run(h, m, data, 0) == Run(h, m', data, used)
      {
        used, marks', stopped, m' := Byte(h, data, used, marks', m');
        if stopped {
          return;
        }
      }
      RunAtEnd(h, m', data);
    }

    /** The callbacks for marks that are left over at the end of the buffer; at most one of them is set. */
    method EmitLeft(h: Handler, marks: Marks, data: string, ghost m: M)
      requires R() == m.r && trace == m.trace && errno == OK && Covers(marks, m.span, data, |data|)
      modifies `trace, `errno
      ensures R() == Finish(h, m).r && trace == Finish(h, m).trace && errno != HeaderOverflow
    {
      AtMostOneMark(marks, m.span, data);
      hide Covers, R, AfterData;
      var left := marks;
      left := Emit(h, Field, left, data, |data|);
      if errno != OK { return; }
      left := Emit(h, Value, left, data, |data|);
      if errno != OK { return; }
      left := Emit(h, Url, left, data, |data|);
      if errno != OK { return; }
      left := Emit(h, Body, left, data, |data|);
      if errno != OK { return; }
      left := Emit(h, Status, left, data, |data|);
    }

    /** The marks that are set when a call begins. */
    function Restored(): (marks: Marks)
      reads this
      ensures Covers(marks, Begin(R(), trace).span, "", 0)
    {
      if state.HeaderField? then NO_MARKS.Put(Field, 0)
      else if state.HeaderValue? then NO_MARKS.Put(Value, 0)
      else if InUrl(state) then NO_MARKS.Put(Url, 0)
      else if state.ResStatus? then NO_MARKS.Put(Status, 0)
      else NO_MARKS
    }

    /** `c` describes the call that has just returned `used`. After an error the registers no longer matter. */
    ghost predicate Agrees(c: Result, used: nat)
      reads `ptype, `flags, `state, `hstate, `index, `lenient, `clen, `major, `minor, `status, `meth, `errno, `upgrade,
            `trace
    {
      && used == c.used && trace == c.p.trace && errno == c.p.r.errno
      && (errno in {OK, Paused} ==> R() == c.p.r)
    }

    /** An empty buffer stands for the end of the stream. */
    method Eof(h: Handler) returns (used: nat)
      requires Valid() && errno == OK
      modifies `trace, `errno, `upgrade, `flags
      ensures Valid() && Agrees(Call(h, old(View()), ""), used) && errno != HeaderOverflow
    {
      hide Run;
      if state.BodyIdentityEof? {
        ghost var m := Begin(R(), trace);
        FireNoteOk(h, m, OnMessageComplete);
        Notify(h, OnMessageComplete);
        NoteNeverOverflows(OnMessageComplete);
        used := 0;
      } else if state.Dead? || state.StartReqOrRes? || state.StartRes? || state.StartReq? {
        used := 0;
      } else {
        errno := InvalidEofState;
        used := 1;
      }
    }

    /** The loop over a buffer that is not empty, and the callbacks behind it. */
    method Work(h: Handler, data: string) returns (used: nat)
      requires Valid() && errno == OK && 0 < |data| < TWO_32 - MAX_HEADER_SIZE
      modifies `ptype, `flags, `state, `hstate, `index, `lenient, `clen, `major, `minor, `status, `meth, `errno,
               `upgrade, `trace, `nread
      ensures old(trace) <= trace
      ensures errno in {OK, Paused} && state.ChunkSizeStart? ==> nread == 0
      ensures var o := Run(h, Begin(old(R()), old(trace)), data, 0);
              if errno == HeaderOverflow then Overflowed(o)
              else if o.stopped then Stopped(o, used) && Counted(Return(true), o.m, false)
              else used == o.at == |data| && R() == Finish(h, o.m).r && trace == Finish(h, o.m).trace
                   && Counted(Return(true), Finish(h, o.m), false)
    {
      hide Run, MOk, RegsOk, SpanOk, Covers, TooLarge, Finish;
      ghost var m := Begin(R(), trace);
      BeginOk(R(), trace);
      var marks := Restored();
      CoversAtStart(marks, m.span, data);
      RunNeverOverflows(h, m, data, 0);
      var stopped: bool;
      used, marks, stopped, m := Loop(h, data, marks, m);
      if !stopped {
        RunAtEnd(h, m, data);
        EndOfBuffer(h, marks, data, m);
      }
    }

    /** The buffer has been read to its end. */
    method EndOfBuffer(h: Handler, marks: Marks, data: string, ghost m: M)
      requires Tracks(m, marks, data, |data|) && Counted(Return(true), m, false)
      modifies `trace, `errno
      ensures old(trace) <= trace && state == old(state) && old(errno) == OK && errno != HeaderOverflow
      ensures R() == Finish(h, m).r && trace == Finish(h, m).trace && Counted(Return(true), Finish(h, m), false)
    {
      hide Run, RegsOk, SpanOk, Covers;
      InHeader(m);
      FinishOk(h, m);
      EmitLeft(h, marks, data, m);
    }

    lemma TallyHeight(d: Head, slack: nat, lossy: bool)
      requires Tally(d, d.bytes, slack, lossy)
      ensures !paused && !lossy ==> d.Height(hdr) <= MAX_HEADER_SIZE
    {
    }

    /** The count at the end of a call. */
    ghost method Settle(d: Head)
      requires errno in {OK, Paused} ==> Tally(d, d.bytes, Slack(state, errno), Loses(state, errno))
      modifies `hdr, `cuts, `paused
      ensures CountOk()
      ensures hdr == (if d.restarted then 0 else old(hdr)) + d.bytes
      ensures cuts == (if d.restarted then 0 else old(cuts)) + 1 - Slack(state, errno)
      ensures paused == (Loses(state, errno) || (old(paused) && !d.restarted))
    {
      hdr, cuts, paused := SizeOf(d, d.bytes), CutsOf(d) - Slack(state, errno), Loses(state, errno)
                           || (paused && !d.restarted);
    }

    /** `http_parser_execute`. A header is found to be too large only if the headers of the call exceed the limit,
        with one byte more for each cut and for this call; otherwise the call does what `Call` says. And a header
        larger than the limit is always found, unless a pause at the end of a value has lost some of its bytes. */
    method Execute(h: Handler, data: string) returns (used: nat)
      requires Valid() && |data| < TWO_32 - MAX_HEADER_SIZE
      modifies this
      ensures Valid()
      ensures if errno == HeaderOverflow && old(errno) != HeaderOverflow
              then old(trace) <= trace <= Call(h, old(View()), data).p.trace
                   && Last(h, old(View()), data).head.Size(old(hdr), old(cuts)) > MAX_HEADER_SIZE
              else Agrees(Call(h, old(View()), data), used)
      ensures errno in {OK, Paused} && old(errno) == OK && data != "" && !old(paused) && !Loses(state, errno) ==>
                Last(h, old(View()), data).head.Height(old(hdr)) <= MAX_HEADER_SIZE
      ensures errno in {OK, Paused} && old(errno) == OK && data != "" ==>
                var d := Last(h, old(View()), data).head;
                && hdr == (if d.restarted then 0 else old(hdr)) + d.bytes
                && cuts == (if d.restarted then 0 else old(cuts)) + 1 - Slack(state, errno)
                && paused == (Loses(state, errno) || (old(paused) && !d.restarted))
      ensures old(errno) != OK || data == "" ==> hdr == old(hdr) && cuts == old(cuts) && paused == old(paused)
    {
      hide Run, RegsOk, Call, Last, AtEof, Tally, SizeOf, CutsOf;
      if errno != OK {
        CallAfterError(h, View(), data);
        return 0;
      }
      if data == "" {
        used := Eof(h);
      } else {
        CallOk(h, View(), data);
        ghost var d;
        used, d := WorkAndCount(h, data);
        if errno in {OK, Paused} {
          TallyHeight(d, Slack(state, errno), Loses(state, errno));
        }
        Settle(d);
      }
    }

    /** `Work`, and the count it leaves. */
    method WorkAndCount(h: Handler, data: string) returns (used: nat, ghost d: Head)
      requires Valid() && errno == OK && 0 < |data| < TWO_32 - MAX_HEADER_SIZE
      modifies `ptype, `flags, `state, `hstate, `index, `lenient, `clen, `major, `minor, `status, `meth, `errno,
               `upgrade, `trace, `nread
      ensures errno in {OK, Paused} && state.ChunkSizeStart? ==> nread == 0
      ensures d == Last(h, old(View()), data).head
      ensures errno in {OK, Paused} ==> Tally(d, d.bytes, Slack(state, errno), Loses(state, errno))
      ensures if errno == HeaderOverflow
              then old(trace) <= trace <= Call(h, old(View()), data).p.trace && TooLarge(d)
              else Agrees(Call(h, old(View()), data), used)
    {
      hide Run, RegsOk, Call, Last, Tally, TooLarge, Finish, Begin;
      CallIsRun(h, View(), data);
      d := Last(h, View(), data).head;
      used := Work(h, data);
    }
  }

  /** A search from `from` that has come to `q` has looked at no more bytes than the limit. */
  function Looked(from: nat, q: nat): nat
    requires from <= q
  {
    if q - from <= MAX_HEADER_SIZE then q else from + MAX_HEADER_SIZE
  }

  /** The search started at `g` has reached `q`. */
  ghost predicate Searched(r: Regs, lenient: bool, data: string, g: nat, q: nat)
    requires g < q <= |data|
  {
    && r.hstate.General? && LegalValueByte(lenient, data[g])
    && NoLineEnd(data, g, Looked(g, q)) && (q < |data| ==> Looked(g, q) == q)
  }

  lemma SearchedPart(r: Regs, lenient: bool, data: string, g: nat, q: nat)
    requires g <= q <= |data| && (g < q ==> Searched(r, lenient, data, g, q))
    ensures var q1 := Looked(g, q); g < q1 ==> Searched(r, lenient, data, g, q1) && NoLineEnd(data, g, q1)
  {
  }

  lemma InHeaderNext(next: Continue, m: M)
    requires !next.Return? ==> MOk(m)
    ensures !next.Return? ==> m.r.errno == OK
  {
  }

  /** The value loop, watched up to `g` and searched from there, at `q`. */
  ghost function ValueReached(m: M, data: string, p: nat, g: nat, q: nat): M
    requires p <= g <= q <= |data|
  {
    m.(r := ValueFold(m.r, data, p, g), span := Marked(Value, Behind(m.span) + data[p..q]), skip := g < q,
       head := m.head.Plus(q - p))
  }

  lemma ValueReach(h: Handler, m: M, data: string, p: nat, g: nat, q: nat)
    requires p <= g <= q <= |data| && Watched(m.r, data, p, g)
    requires MOk(m) && m.r.state.HeaderValue? && !m.skip
    requires g < q ==> Searched(ValueFold(m.r, data, p, g), m.r.lenient, data, g, q) && NoLineEnd(data, g, q)
    ensures MOk(ValueReached(m, data, p, g, q)) && ValueFold(m.r, data, p, g).state.HeaderValue?
    ensures Run(h, m, data, p) == Run(h, ValueReached(m, data, p, g, q), data, q)
  {
    hide Run, MOk, ValueFold, ValueNext;
    if g < q {
      ValueSearch(h, m, data, p, g, q);
    } else {
      ValueSkip(h, m, data, p, g);
    }
  }

  lemma WatchOne(r: Regs, data: string, p: nat, q: nat)
    requires p <= q < |data| && Watched(r, data, p, q)
    requires !ValueFold(r, data, p, q).hstate.General?
    requires data[q] != CR && data[q] != LF && ValueFailure(ValueFold(r, data, p, q), r.lenient, data[q]) == OK
    ensures ValueFold(r, data, p, q + 1) == ValueNext(ValueFold(r, data, p, q), data[q])
    ensures Watched(r, data, p, q + 1)
    ensures var r1, r2 := ValueFold(r, data, p, q), ValueFold(r, data, p, q + 1);
            r1.errno == OK ==> r2 == r1.(hstate := r2.hstate, index := r2.index, flags := r2.flags, clen := r2.clen)
  {
    hide Lower, IsToken, Shifted, IsHeaderChar;
    assert WatchedAt(r, data, p, q);
  }
}
