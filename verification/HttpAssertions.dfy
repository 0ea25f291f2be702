/** The assertions in `http_parser_execute` never fail, whatever the parser is fed and whatever its callbacks do. */
module HttpAssertions {
  import opened HttpTypes
  import opened HttpAutomaton
  import opened HttpRun
  import opened HttpInvariant

  /** The header states that the switch for a byte of a header name knows. */
  predicate KnownInName(h: HState) {
    h in {General, C, CO, CON, MatchingConnection, MatchingProxyConnection, MatchingContentLength,
          MatchingTransferEncoding, MatchingUpgrade, Connection, ContentLength, TransferEncoding, Upgrade}
  }

  predicate InChunk(s: State) {
    s in {ChunkSizeStart, ChunkSize, ChunkParameters, ChunkSizeAlmostDone, ChunkData, ChunkDataAlmostDone,
          ChunkDataDone}
  }

  /** The assertions about the registers. */
  ghost predicate RegsAsserted(r: Regs) {
    && (r.state.HeaderField? ==> KnownInName(r.hstate))
    && (r.state.HeaderValue? ==> !r.hstate.Connection? && !r.hstate.TransferEncoding?)
    && (r.state.BodyIdentity? || r.state.ChunkData? ==> r.clen != 0 && r.clen != NO_LENGTH)
    && (InChunk(r.state) ==> r.flags.chunked)
    && (r.state.ChunkDataAlmostDone? ==> r.clen == 0)
  }

  /** The assertions at the byte `ch`: no error is set before the callback, and a data callback is about
      the only mark that is set. */
  ghost predicate Asserted(m: M, ch: char) {
    && RegsAsserted(m.r)
    && var a := Transition(m.r, ch, m.skip);
       var span := OpenMark(m.span, if a.Go? then a.mark else Keep);
       a.Go? ==> a.r.errno == OK && (a.cb.Flush? && span.Marked? ==> span.kind == a.cb.kind)
  }

  /** From `data[i]` on, no assertion of the call fails. */
  ghost predicate NoneFails(h: Handler, m: M, data: string, i: nat)
    requires i <= |data|
    decreases |data| - i, Rank(m.r.state)
  {
    i < |data| ==>
      && Asserted(m, data[i])
      && match Do(h, m, data[i])
         case Next(m') => NoneFails(h, m', data, i + 1)
         case Again(m') => NoneFails(h, m', data, i)
         case Halt(_, _) => true
  }

  lemma AssertedAt(m: M, ch: char)
    requires MOk(m)
    ensures Asserted(m, ch)
  {
    TransitionOk(m, ch);
    RegsHold(m.r);
    hide Transition, RegsAsserted;
  }

  lemma RegsHold(r: Regs)
    requires RegsOk(r)
    ensures RegsAsserted(r)
  {
  }

  lemma {:induction false} NoneFailsInRun(h: Handler, m: M, data: string, i: nat)
    requires MOk(m) && i <= |data|
    ensures NoneFails(h, m, data, i)
    decreases |data| - i, Rank(m.r.state)
  {
    hide MOk, Asserted, Do;
    if i < |data| {
      AssertedAt(m, data[i]);
      DoOk(h, m, data[i]);
      match Do(h, m, data[i])
      case Next(m') => NoneFailsInRun(h, m', data, i + 1);
      case Again(m') => NoneFailsInRun(h, m', data, i);
      case Halt(_, _) =>
    }
  }

  /** What a program does with a parser. Each call may be made with other callbacks. */
  datatype Use = Execute(h: Handler, data: string) | Pause(on: bool)

  function After(p: Snapshot, use: Use): Snapshot {
    match use
    case Execute(h, data) => Call(h, p, data).p
    case Pause(on) => if p.r.errno in {OK, Paused} then SetPaused(p, on) else p
  }

  ghost predicate NeverFails(p: Snapshot, uses: seq<Use>)
    decreases |uses|
  {
    uses != [] ==>
      && (uses[0].Execute? && p.r.errno == OK ==> NoneFails(uses[0].h, Begin(p.r, p.trace), uses[0].data, 0))
      && NeverFails(After(p, uses[0]), uses[1..])
  }

  lemma AfterOk(p: Snapshot, use: Use)
    requires SnapshotOk(p)
    ensures SnapshotOk(After(p, use))
  {
    if use.Execute? {
      CallOk(use.h, p, use.data);
    }
    hide Call;
  }

  lemma {:induction false} NeverFailsFrom(p: Snapshot, uses: seq<Use>)
    requires SnapshotOk(p)
    ensures NeverFails(p, uses)
    decreases |uses|
  {
    if uses != [] {
      AfterOk(p, uses[0]);
      if uses[0].Execute? && p.r.errno == OK {
        BeginOk(p.r, p.trace);
        NoneFailsInRun(uses[0].h, Begin(p.r, p.trace), uses[0].data, 0);
      }
      NeverFailsFrom(After(p, uses[0]), uses[1..]);
    }
  }

  /** Main result: over the whole life of a parser no assertion fails. */
  lemma AssertionsNeverFail(t: ParserType, uses: seq<Use>)
    ensures NeverFails(Init(t), uses)
  {
    NeverFailsFrom(Init(t), uses);
  }
}
