/** The shortcuts of `http_parser_execute`: what its inner loops and bulk skips
    are worth in single steps of the byte automaton. */
module HttpSkips {
  import opened Bytes
  import opened HttpTypes
  import opened HttpAutomaton
  import opened HttpRun
  import opened HttpInvariant

  /** Callbacks are only ever added to the trace. */
  lemma DoTrace(h: Handler, m: M, ch: char)
    ensures m.trace <= Do(h, m, ch).m.trace
  {
    var a := Transition(m.r, ch, m.skip);
    if a.Go? {
      var m' := MovedTo(m, a.r, a.mark, ch);
      assert m.trace <= Fire(h, m', a.cb, ch).trace;
    }
  }

  lemma {:induction false} RunTrace(h: Handler, m: M, data: string, i: nat)
    requires i <= |data|
    ensures m.trace <= Run(h, m, data, i).m.trace
    decreases |data| - i, Rank(m.r.state)
  {
    if i < |data| {
      var s := Do(h, m, data[i]);
      DoTrace(h, m, data[i]);
      if s.Next? {
        RunTrace(h, s.m, data, i + 1);
      } else if s.Again? {
        RunTrace(h, s.m, data, i);
      }
    }
  }

  /** The headers only ever grow. */
  lemma DoSize(h: Handler, m: M, ch: char, hdr: nat, cuts: nat)
    ensures m.head.Size(hdr, cuts) <= Do(h, m, ch).m.head.Size(hdr, cuts)
  {
    var a := Transition(m.r, ch, m.skip);
    hide Transition, Fire, ParsingHeader, Resets;
    if a.Go? {
      FireHead(h, MovedTo(m, a.r, a.mark, ch), a.cb, ch);
    }
  }

  lemma FireHead(h: Handler, m: M, cb: Callback, ch: char)
    ensures Fire(h, m, cb, ch).head == m.head && Fire(h, m, cb, ch).r.state == m.r.state
    ensures Fire(h, m, cb, ch).skip == m.skip
  {
  }

  lemma {:induction false} RunSize(h: Handler, m: M, data: string, i: nat, hdr: nat, cuts: nat)
    requires i <= |data|
    ensures m.head.Size(hdr, cuts) <= Run(h, m, data, i).m.head.Size(hdr, cuts)
    decreases |data| - i, Rank(m.r.state)
  {
    if i < |data| {
      DoSize(h, m, data[i], hdr, cuts);
      var s := Do(h, m, data[i]);
      hide Do;
      if s.Next? {
        RunSize(h, s.m, data, i + 1, hdr, cuts);
      } else if s.Again? {
        RunSize(h, s.m, data, i, hdr, cuts);
      }
    }
  }

  /** A byte that only moves the automaton on, inside a mark or outside. */
  lemma QuietStep(h: Handler, m: M, ch: char)
    requires m.r.errno == OK
    requires var a := Transition(m.r, ch, m.skip); a.Go? && a.cb.Quiet? && a.move.Advance? && a.r.errno == OK
    ensures var a := Transition(m.r, ch, m.skip);
            Do(h, m, ch) == Next(Consume(MovedTo(m, a.r, a.mark, ch), ch))
  {
  }

  /** Taking one byte over from a slice to the text in front of it. */
  lemma TakeOne(before: string, data: string, p: nat, q: nat)
    requires p < q <= |data|
    ensures before + [data[p]] + data[p + 1..q] == before + data[p..q]
  {
  }

  /** Adding one byte at the end of a slice. */
  lemma PutOne(before: string, data: string, p: nat, q: nat)
    requires p <= q < |data|
    ensures before + data[p..q] + [data[q]] == before + data[p..q + 1]
  {
  }

  /** The bytes behind the mark that is set, if any. */
  function Behind(s: Span): string {
    if s.Marked? then s.bytes else ""
  }

  /** One more byte of a header name. */
  lemma NameStep(h: Handler, m: M, ch: char)
    requires MOk(m) && m.r.state.HeaderField? && IsToken(ch)
    ensures var (hs, i) := FieldNext(m.r.hstate, m.r.index, TokenLower(ch));
            Do(h, m, ch) == Next(m.(r := m.r.(hstate := hs, index := i),
                                    span := Marked(Field, m.span.bytes + [ch]), head := m.head.Plus(1)))
  {
    QuietStep(h, m, ch);
  }

  /** The name recognizer after the bytes `data[p..q]`. */
  function NameFold(hs: HState, index: nat, data: string, p: nat, q: nat): (HState, nat)
    requires p <= q <= |data|
  {
    if p == q then (hs, index)
    else
      var (hs', i) := NameFold(hs, index, data, p, q - 1);
      FieldNext(hs', i, TokenLower(data[q - 1]))
  }

  ghost predicate AllTokens(data: string, from: nat, to: nat)
    requires from <= to <= |data|
  {
    forall k :: from <= k < to ==> IsToken(data[k])
  }

  ghost function NameRead(m: M, data: string, p: nat, q: nat): M
    requires p <= q <= |data|
  {
    var (hs, i) := NameFold(m.r.hstate, m.r.index, data, p, q);
    m.(r := m.r.(hstate := hs, index := i),
       span := Marked(Field, Behind(m.span) + data[p..q]), head := m.head.Plus(q - p))
  }

  /** The inner loop over the bytes of a header name. */
  lemma {:induction false} NameSkip(h: Handler, m: M, data: string, p: nat, q: nat)
    requires p <= q <= |data| && AllTokens(data, p, q)
    requires MOk(m) && m.r.state.HeaderField? && m.span.Marked? && m.span.kind == Field
    ensures MOk(NameRead(m, data, p, q)) && Run(h, m, data, p) == Run(h, NameRead(m, data, p, q), data, q)
    decreases q - p
  {
    hide Do, MOk, FieldNext, NameFold, IsToken;
    if p == q {
      NameReadNone(m, data, p);
    } else {
      NameSkip(h, m, data, p, q - 1);
      NameReadStep(m, data, p, q);
      NameAdvance(h, NameRead(m, data, p, q - 1), data, q - 1);
    }
  }

  lemma NameReadNone(m: M, data: string, p: nat)
    requires p <= |data| && m.span.Marked? && m.span.kind == Field
    ensures NameRead(m, data, p, p) == m
  {
    assert Behind(m.span) + data[p..p] == m.span.bytes;
  }

  lemma NameReadStep(m: M, data: string, p: nat, q: nat)
    requires p < q <= |data|
    ensures NameRead(m, data, p, q) == NameRead(NameRead(m, data, p, q - 1), data, q - 1, q)
  {
    var (hs, i) := NameFold(m.r.hstate, m.r.index, data, p, q - 1);
    assert NameFold(hs, i, data, q - 1, q - 1) == (hs, i);
    assert data[q - 1..q] == [data[q - 1]];
    PutOne(Behind(m.span), data, p, q - 1);
  }

  lemma NameAdvance(h: Handler, m: M, data: string, q: nat)
    requires MOk(m) && m.r.state.HeaderField? && q < |data| && IsToken(data[q])
    ensures MOk(NameRead(m, data, q, q + 1)) && Run(h, m, data, q) == Run(h, NameRead(m, data, q, q + 1), data, q + 1)
  {
    hide Do;
    var m' := NameRead(m, data, q, q + 1);
    NameStep(h, m, data[q]);
    FieldNextOk(m.r.hstate, m.r.index, TokenLower(data[q]));
    assert NameFold(m.r.hstate, m.r.index, data, q, q) == (m.r.hstate, m.r.index);
    assert data[q..q + 1] == [data[q]];
    assert Do(h, m, data[q]) == Next(m') && MOk(m');
    hide MOk, FieldNext;
    assert Run(h, m, data, q) == Run(h, m', data, q + 1);
  }

  /** One more byte of a header value that is neither CR nor LF. */
  lemma ValueStep(h: Handler, m: M, ch: char)
    requires MOk(m) && m.r.state.HeaderValue? && ch != CR && ch != LF
    requires m.r.lenient || m.skip || IsHeaderChar(ch)
    ensures var r := ValueNext(m.r, ch);
            Do(h, m, ch) ==
            if r.errno != OK then Halt(m.(r := r.(errno := InvalidContentLength)), false)
            else Next(m.(r := r, span := Marked(Value, m.span.bytes + [ch]), skip := m.r.hstate.General?,
                         head := m.head.Plus(1)))
  {
    var r := ValueNext(m.r, ch);
    ValueNextOk(m.r, ch);
    assert Transition(m.r, ch, m.skip) == Values(m.r, ch, m.skip);
    if r.errno == OK {
      QuietStep(h, m, ch);
    }
  }

  ghost predicate NoLineEnd(data: string, from: nat, to: nat)
    requires from <= to <= |data|
  {
    forall k :: from <= k < to ==> data[k] != CR && data[k] != LF
  }

  lemma SpanKept(m: M)
    requires MOk(m) && m.r.state.HeaderValue?
    ensures m.span.Marked? && m == m.(span := Marked(Value, m.span.bytes))
  {
  }

  lemma SearchStep(h: Handler, m: M, ch: char)
    requires MOk(m) && m.r.state.HeaderValue? && m.skip && ch != CR && ch != LF
    ensures var m' := m.(span := Marked(Value, m.span.bytes + [ch]), head := m.head.Plus(1));
            Do(h, m, ch) == Next(m') && MOk(m')
  {
    hide Do;
    ValueStep(h, m, ch);
  }

  /** `memchr`: once the value is of no interest, everything up to the line end is skipped. */
  lemma {:induction false} SearchSkip(h: Handler, m: M, data: string, p: nat, q: nat)
    requires p <= q <= |data| && NoLineEnd(data, p, q)
    requires MOk(m) && m.r.state.HeaderValue? && m.skip
    ensures var m' := m.(span := Marked(Value, m.span.bytes + data[p..q]), head := m.head.Plus(q - p));
            MOk(m') && Run(h, m, data, p) == Run(h, m', data, q)
    decreases q - p
  {
    hide Do, MOk;
    SpanKept(m);
    if p == q {
      assert m.span.bytes + data[p..q] == m.span.bytes;
    } else {
      var m' := m.(span := Marked(Value, m.span.bytes + [data[p]]), head := m.head.Plus(1));
      SearchStep(h, m, data[p]);
      assert Run(h, m, data, p) == Run(h, m', data, p + 1);
      SearchSkip(h, m', data, p + 1, q);
      TakeOne(m.span.bytes, data, p, q);
    }
  }

  /** The value recognizer after the bytes `data[p..q]`. */
  function ValueFold(r: Regs, data: string, p: nat, q: nat): Regs
    requires p <= q <= |data|
  {
    if p == q then r else ValueNext(ValueFold(r, data, p, q - 1), data[q - 1])
  }

  /** A byte the value loop accepts when it looks at it. */
  predicate LegalValueByte(lenient: bool, ch: char) {
    ch != CR && ch != LF && (lenient || IsHeaderChar(ch))
  }

  /** The error of a value byte that is neither CR nor LF, or OK. */
  function ValueFailure(r: Regs, lenient: bool, ch: char): Errno {
    if !lenient && !IsHeaderChar(ch) then InvalidHeaderToken
    else if ValueNext(r, ch).errno != OK then InvalidContentLength
    else OK
  }

  /** The bytes `data[p..q]` are looked at one by one: the value is of interest all along. */
  ghost predicate Watched(r: Regs, data: string, p: nat, q: nat)
    requires p <= q <= |data|
  {
    forall k :: p <= k < q ==> WatchedAt(r, data, p, k)
  }

  ghost predicate WatchedAt(r: Regs, data: string, p: nat, k: nat)
    requires p <= k < |data|
  {
    && LegalValueByte(r.lenient, data[k])
    && !ValueFold(r, data, p, k).hstate.General?
    && ValueFold(r, data, p, k + 1).errno == OK
  }

  ghost function ValueRead(m: M, data: string, p: nat, q: nat, skip: bool): M
    requires p <= q <= |data|
  {
    m.(r := ValueFold(m.r, data, p, q), span := Marked(Value, Behind(m.span) + data[p..q]), skip := skip,
       head := m.head.Plus(q - p))
  }

  /** The inner loop over the bytes of a header value, while it looks at every byte. */
  lemma {:induction false} ValueSkip(h: Handler, m: M, data: string, p: nat, q: nat)
    requires p <= q <= |data| && Watched(m.r, data, p, q)
    requires MOk(m) && m.r.state.HeaderValue? && !m.skip
    ensures MOk(ValueRead(m, data, p, q, false)) && ValueFold(m.r, data, p, q).state.HeaderValue?
    ensures ValueFold(m.r, data, p, q).lenient == m.r.lenient
    ensures Run(h, m, data, p) == Run(h, ValueRead(m, data, p, q, false), data, q)
    decreases q - p
  {
    hide Do, MOk, ValueNext, ValueFold, IsHeaderChar;
    if p == q {
      ValueReadNone(m, data, p);
    } else {
      assert WatchedAt(m.r, data, p, q - 1);
      ValueFoldStep(m.r, data, p, q);
      ValueSkip(h, m, data, p, q - 1);
      ValueReadStep(m, data, p, q);
      ValueAdvance(h, ValueRead(m, data, p, q - 1, false), data, q - 1);
    }
  }

  lemma ValueReadNone(m: M, data: string, p: nat)
    requires p <= |data| && MOk(m) && m.r.state.HeaderValue? && !m.skip
    ensures ValueRead(m, data, p, p, false) == m && ValueFold(m.r, data, p, p) == m.r
  {
    assert Behind(m.span) + data[p..p] == m.span.bytes;
  }

  lemma ValueFoldNone(r: Regs, data: string, p: nat)
    requires p <= |data|
    ensures ValueFold(r, data, p, p) == r
  {
  }

  lemma ValueFoldStep(r: Regs, data: string, p: nat, q: nat)
    requires p < q <= |data|
    ensures ValueFold(r, data, p, q) == ValueNext(ValueFold(r, data, p, q - 1), data[q - 1])
  {
    hide ValueNext;
  }

  lemma ValueReadStep(m: M, data: string, p: nat, q: nat)
    requires p < q <= |data|
    ensures ValueRead(m, data, p, q, false) == ValueRead(ValueRead(m, data, p, q - 1, false), data, q - 1, q, false)
  {
    var r := ValueFold(m.r, data, p, q - 1);
    assert ValueFold(r, data, q - 1, q - 1) == r;
    assert data[q - 1..q] == [data[q - 1]];
    PutOne(Behind(m.span), data, p, q - 1);
  }

  lemma ValueStepOk(h: Handler, m: M, ch: char)
    requires MOk(m) && m.r.state.HeaderValue? && LegalValueByte(m.r.lenient || m.skip, ch)
    requires ValueNext(m.r, ch).errno == OK
    ensures var r := ValueNext(m.r, ch);
            var m' := m.(r := r, span := Marked(Value, Behind(m.span) + [ch]), skip := m.r.hstate.General?,
                         head := m.head.Plus(1));
            && r.lenient == m.r.lenient && r.state.HeaderValue? && MOk(m') && Do(h, m, ch) == Next(m')
  {
    hide Do;
    ValueStep(h, m, ch);
    ValueNextOk(m.r, ch);
  }

  lemma ValueAdvance(h: Handler, m: M, data: string, q: nat)
    requires MOk(m) && m.r.state.HeaderValue? && q < |data|
    requires LegalValueByte(m.r.lenient || m.skip, data[q])
    requires ValueNext(m.r, data[q]).errno == OK
    ensures ValueNext(m.r, data[q]).lenient == m.r.lenient
    ensures var m' := ValueRead(m, data, q, q + 1, m.r.hstate.General?);
            MOk(m') && m'.r == ValueNext(m.r, data[q]) && m'.r.state.HeaderValue?
            && Run(h, m, data, q) == Run(h, m', data, q + 1)
  {
    hide Do, ValueNext, ValueFold, RegsOk;
    var m' := ValueRead(m, data, q, q + 1, m.r.hstate.General?);
    ValueStepOk(h, m, data[q]);
    ValueFoldStep(m.r, data, q, q + 1);
    ValueFoldNone(m.r, data, q);
    assert data[q..q + 1] == [data[q]];
    assert Do(h, m, data[q]) == Next(m');
    hide MOk;
    assert Run(h, m, data, q) == Run(h, m', data, q + 1);
  }

  /** The whole value loop: watched up to `g`, and searched from there to the line end. */
  lemma ValueSearch(h: Handler, m: M, data: string, p: nat, g: nat, q: nat)
    requires p <= g < q <= |data| && Watched(m.r, data, p, g)
    requires MOk(m) && m.r.state.HeaderValue? && !m.skip
    requires ValueFold(m.r, data, p, g).hstate.General?
    requires LegalValueByte(m.r.lenient, data[g]) && NoLineEnd(data, g, q)
    ensures var m' := m.(r := ValueFold(m.r, data, p, g), span := Marked(Value, Behind(m.span) + data[p..q]),
                         skip := true, head := m.head.Plus(q - p));
            MOk(m') && m'.r.state.HeaderValue? && Run(h, m, data, p) == Run(h, m', data, q)
  {
    hide Do, MOk, Run, ValueFold;
    ValueSkip(h, m, data, p, g);
    var m1 := ValueRead(m, data, p, g, false);
    InHeader(m1);
    assert ValueNext(m1.r, data[g]) == m1.r;
    hide ValueNext;
    ValueAdvance(h, m1, data, g);
    var m2 := ValueRead(m1, data, g, g + 1, true);
    assert Run(h, m, data, p) == Run(h, m2, data, g + 1);
    SearchSkip(h, m2, data, g + 1, q);
    Join(Behind(m.span), data, p, g, q);
    assert m2.span.bytes == Behind(m.span) + data[p..g] + data[g..g + 1];
    assert m2 == m.(r := m1.r, span := m2.span, skip := true, head := m.head.Plus(g + 1 - p));
  }

  /** The value loop stops at a byte that fails. */
  lemma ValueFail(h: Handler, m: M, data: string, p: nat, g: nat)
    requires p <= g < |data| && Watched(m.r, data, p, g)
    requires MOk(m) && m.r.state.HeaderValue? && !m.skip
    requires data[g] != CR && data[g] != LF
    requires ValueFailure(ValueFold(m.r, data, p, g), m.r.lenient, data[g]) != OK
    ensures var o := Run(h, m, data, p);
            && o.stopped && o.at == g && o.m.trace == m.trace
            && o.m.r.errno == ValueFailure(ValueFold(m.r, data, p, g), m.r.lenient, data[g])
  {
    hide Do, Run, MOk, ValueFold, ValueNext;
    ValueSkip(h, m, data, p, g);
    var m1 := ValueRead(m, data, p, g, false);
    ValueFailStep(h, m1, data[g]);
    SpecStep(h, m1, data, g);
  }

  lemma ValueFailStep(h: Handler, m: M, ch: char)
    requires MOk(m) && m.r.state.HeaderValue? && !m.skip && ch != CR && ch != LF
    requires ValueFailure(m.r, m.r.lenient, ch) != OK
    ensures var s := Do(h, m, ch);
            && s.Halt? && !s.used && s.m.trace == m.trace
            && s.m.r.errno == ValueFailure(m.r, m.r.lenient, ch)
  {
    assert Transition(m.r, ch, m.skip) == Values(m.r, ch, m.skip);
  }

  /** The part of the invariant that the loops over names and values need. */
  lemma InHeader(m: M)
    requires MOk(m)
    ensures m.r.errno == OK
    ensures m.r.state.HeaderField? ==> m.span.Marked? && m.span.kind == Field
    ensures m.r.state.HeaderValue? ==> m.span.Marked? && m.span.kind == Value
  {
  }

  lemma Join(before: string, data: string, p: nat, g: nat, q: nat)
    requires p <= g < q <= |data|
    ensures before + data[p..g] + data[g..g + 1] + data[g + 1..q] == before + data[p..q]
  {
  }

  /** `n` bytes of a body of known length, or of a chunk, of which more is to come. */
  ghost function BodyRead(m: M, data: string, p: nat, n: nat): M
    requires p + n <= |data| && n <= m.r.clen
  {
    m.(r := m.r.(clen := m.r.clen - n), span := Marked(Body, Behind(m.span) + data[p..p + n]))
  }

  lemma BodyStep(h: Handler, m: M, ch: char)
    requires MOk(m) && m.r.clen > 1 && !m.head.begun
    requires m.r.state.BodyIdentity? || m.r.state.ChunkData?
    ensures var m' := m.(r := m.r.(clen := m.r.clen - 1), span := Marked(Body, Behind(m.span) + [ch]));
            MOk(m') && Do(h, m, ch) == Next(m')
  {
    QuietStep(h, m, ch);
    assert "" + [ch] == [ch];
  }

  /** The bulk skip over the data of a body, short of its last byte. */
  lemma {:induction false} BodySkip(h: Handler, m: M, data: string, p: nat, n: nat)
    requires p + n <= |data| && 0 < n < m.r.clen && MOk(m) && !m.head.begun
    requires m.r.state.BodyIdentity? || m.r.state.ChunkData?
    ensures MOk(BodyRead(m, data, p, n)) && Run(h, m, data, p) == Run(h, BodyRead(m, data, p, n), data, p + n)
    decreases n
  {
    hide Do, MOk, Run;
    BodyStep(h, m, data[p]);
    SpecStep(h, m, data, p);
    var m' := BodyRead(m, data, p, 1);
    assert data[p..p + 1] == [data[p]];
    if n > 1 {
      BodySkip(h, m', data, p + 1, n - 1);
      BodyReadTwice(m, data, p, n);
    }
  }

  lemma BodyReadTwice(m: M, data: string, p: nat, n: nat)
    requires 1 <= n <= m.r.clen && p + n <= |data|
    ensures BodyRead(BodyRead(m, data, p, 1), data, p + 1, n - 1) == BodyRead(m, data, p, n)
  {
    assert data[p..p + 1] == [data[p]] && p + 1 + (n - 1) == p + n;
    if n == 1 {
      assert Behind(m.span) + [data[p]] + data[p + 1..p + n] == Behind(m.span) + data[p..p + n];
    } else {
      TakeOne(Behind(m.span), data, p, p + n);
    }
  }

  /** The last byte of a chunk. */
  lemma ChunkEndAct(r: Regs, ch: char, skip: bool)
    requires RegsOk(r) && r.state.ChunkData? && r.clen == 1
    ensures var r' := r.(clen := 0, state := ChunkDataAlmostDone);
            Transition(r, ch, skip) == Go(r', Open(Body), Quiet, Advance) && RegsOk(r')
  {
  }

  lemma ChunkEndStep(h: Handler, m: M, ch: char)
    requires MOk(m) && m.r.state.ChunkData? && m.r.clen == 1 && !m.head.begun
    ensures var m' := m.(r := m.r.(clen := 0, state := ChunkDataAlmostDone),
                         span := Marked(Body, Behind(m.span) + [ch]));
            MOk(m') && Do(h, m, ch) == Next(m')
  {
    hide Transition, Do, RegsOk;
    ChunkEndAct(m.r, ch, m.skip);
    QuietStep(h, m, ch);
    assert "" + [ch] == [ch];
  }

  /** The last byte of a body of known length: the callback, and the byte is read again. */
  lemma BodyEndStep(h: Handler, m: M, ch: char)
    requires MOk(m) && m.r.state.BodyIdentity? && m.r.clen == 1 && !m.head.begun
    ensures var m' := BodyDone(h, m, Behind(m.span) + [ch]);
            Do(h, m, ch) == (if m'.r.errno != OK then Halt(m', false) else Again(m')) && (m'.r.errno == OK ==> MOk(m'))
  {
    BodyEndAct(m, ch);
    DoOk(h, m, ch);
    assert "" + [ch] == [ch];
    hide Transition, MOk;
  }

  lemma BodyEndAct(m: M, ch: char)
    requires MOk(m) && m.r.state.BodyIdentity? && m.r.clen == 1
    ensures m.r.errno == OK && (m.span.Marked? ==> m.span.kind == Body)
    ensures Transition(m.r, ch, m.skip) ==
            Go(m.r.(clen := 0, state := MessageDone), Open(Body), Flush(Body, true), Reread)
  {
  }

  /** The end of a body of known length, whose last callback delivers `bytes`. */
  function BodyDone(h: Handler, m: M, bytes: string): M {
    var r := m.r.(clen := 0, state := MessageDone);
    M(AfterData(r, Body, h(m.trace + [Data(Body, bytes)])), m.trace + [Data(Body, bytes)], NoSpan, false, m.head)
  }

  /** `n` bytes of a chunk. */
  lemma ChunkSkip(h: Handler, m: M, data: string, p: nat, n: nat)
    requires 0 < n <= m.r.clen && p + n <= |data| && MOk(m) && m.r.state.ChunkData? && !m.head.begun
    ensures var m1 := BodyRead(m, data, p, n);
            var m' := if n == m.r.clen then m1.(r := m1.r.(state := ChunkDataAlmostDone)) else m1;
            MOk(m') && Run(h, m, data, p) == Run(h, m', data, p + n)
  {
    hide Run, Do;
    if n < m.r.clen {
      BodySkip(h, m, data, p, n);
    } else {
      var m1 := if n > 1 then BodyRead(m, data, p, n - 1) else m;
      if n > 1 {
        BodySkip(h, m, data, p, n - 1);
      }
      ChunkEndStep(h, m1, data[p + n - 1]);
      SpecStep(h, m1, data, p + n - 1);
      BodyReadLast(m, data, p, n);
    }
  }

  lemma BodyReadLast(m: M, data: string, p: nat, n: nat)
    requires 0 < n <= m.r.clen && p + n <= |data|
    ensures var m1 := if n > 1 then BodyRead(m, data, p, n - 1) else m;
            Behind(m1.span) + [data[p + n - 1]] == Behind(m.span) + data[p..p + n]
  {
    PutOne(Behind(m.span), data, p, p + n - 1);
    assert Behind(m.span) + data[p..p] == Behind(m.span);
  }

  /** All bytes that are left of a body of known length. */
  lemma BodyFinish(h: Handler, m: M, data: string, p: nat)
    requires p + m.r.clen <= |data| && MOk(m) && m.r.state.BodyIdentity? && !m.head.begun
    ensures var n := m.r.clen;
            var m' := BodyDone(h, m, Behind(m.span) + data[p..p + n]);
            && n > 0
            && (m'.r.errno == OK ==> MOk(m'))
            && Run(h, m, data, p) == if m'.r.errno != OK then Outcome(m', p + n - 1, true)
               else Run(h, m', data, p + n - 1)
  {
    var n := m.r.clen;
    assert n > 0;
    hide Run, Do, MOk;
    var m1 := if n > 1 then BodyRead(m, data, p, n - 1) else m;
    if n > 1 {
      BodySkip(h, m, data, p, n - 1);
    }
    BodyEndStep(h, m1, data[p + n - 1]);
    SpecStep(h, m1, data, p + n - 1);
    BodyReadLast(m, data, p, n);
  }

  lemma EofStep(h: Handler, m: M, ch: char)
    requires MOk(m) && m.r.state.BodyIdentityEof? && !m.head.begun
    ensures Do(h, m, ch) == Next(m.(span := Marked(Body, Behind(m.span) + [ch])))
    ensures MOk(m.(span := Marked(Body, Behind(m.span) + [ch])))
  {
    QuietStep(h, m, ch);
    assert "" + [ch] == [ch];
  }

  /** Without a length, the rest of the buffer is body. */
  lemma {:induction false} EofSkip(h: Handler, m: M, data: string, p: nat)
    requires p < |data| && MOk(m) && m.r.state.BodyIdentityEof? && !m.head.begun
    ensures var m' := m.(span := Marked(Body, Behind(m.span) + data[p..]));
            MOk(m') && Run(h, m, data, p) == Run(h, m', data, |data|)
    decreases |data| - p
  {
    hide Do, MOk, Run;
    var m' := m.(span := Marked(Body, Behind(m.span) + [data[p]]));
    EofStep(h, m, data[p]);
    SpecStep(h, m, data, p);
    if p + 1 < |data| {
      EofSkip(h, m', data, p + 1);
    } else {
      assert m'.span.bytes + data[p + 1..] == m'.span.bytes;
    }
    TakeOne(Behind(m.span), data, p, |data|);
    assert data[p..|data|] == data[p..] && data[p + 1..|data|] == data[p + 1..];
  }

  /** The loop of a call, one step further. */
  lemma SpecStep(h: Handler, m: M, data: string, p: nat)
    requires p < |data|
    ensures Do(h, m, data[p]) == Apply(h, m, Transition(m.r, data[p], m.skip), data[p])
    ensures var s := Do(h, m, data[p]);
            Run(h, m, data, p) ==
            match s
            case Next(m') => Run(h, m', data, p + 1)
            case Again(m') => Run(h, m', data, p)
            case Halt(m', used) => Outcome(m', if used then p + 1 else p, true)
  {
    hide Transition, Apply;
  }

  lemma RunAtEnd(h: Handler, m: M, data: string)
    ensures Run(h, m, data, |data|) == Outcome(m, |data|, false)
  {
    hide Do;
  }

  /** A call after an error, or while the parser is paused. */
  lemma CallAfterError(h: Handler, p: Snapshot, data: string)
    requires p.r.errno != OK
    ensures Call(h, p, data) == Result(p, 0)
  {
  }

  /** A call with a buffer that is not empty. */
  lemma CallIsRun(h: Handler, p: Snapshot, data: string)
    requires p.r.errno == OK && data != ""
    ensures var o := Run(h, Begin(p.r, p.trace), data, 0);
            var m := if o.stopped then o.m else Finish(h, o.m);
            && Last(h, p, data) == m && m.head == o.m.head && Call(h, p, data) == Result(Snapshot(m.r, m.trace), o.at)
               && o.m.trace <= m.trace
  {
    hide Run;
  }
}
