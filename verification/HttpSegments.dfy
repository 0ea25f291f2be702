/** Cutting a stream into calls, and pausing in callbacks, changes nothing. */
module HttpSegments {
  import opened Bytes
  import opened HttpTypes
  import opened HttpAutomaton
  import opened HttpRun
  import opened HttpInvariant
  import opened HttpSkips
  import opened HttpStream
  import HttpAssertions

  /** A parser that can be given more bytes; inside a span, the last callback was about that span. */
  ghost predicate Resumable(p: Snapshot) {
    && p.r.errno == OK && RegsOk(p.r)
    && (RuleOf(p.r.state).Always? ==> EndsWith(Merge(p.trace), RuleOf(p.r.state).kind))
  }

  ghost predicate EndsWith(log: seq<Event>, k: DataKind) {
    log != [] && log[|log| - 1].Data? && log[|log| - 1].kind == k
  }

  lemma PutEnds(log: seq<Event>, k: DataKind, bytes: string)
    ensures EndsWith(Put(log, Data(k, bytes)), k)
    ensures EndsWith(log, k) ==> Put(log, Data(k, "")) == log
  {
    if EndsWith(log, k) {
      assert log[|log| - 1].bytes + "" == log[|log| - 1].bytes;
    }
  }

  lemma BeginNorm(p: Snapshot)
    requires Resumable(p)
    ensures MOk(Begin(p.r, p.trace)) && !Begin(p.r, p.trace).skip && AbsOf(Begin(p.r, p.trace)) == AbsOfSnapshot(p)
  {
    BeginOk(p.r, p.trace);
    var m := Begin(p.r, p.trace);
    if RuleOf(p.r.state).Always? {
      PutEnds(Merge(p.trace), RuleOf(p.r.state).kind, "");
    }
  }

  /** The callbacks a call has made, and what of the log it has kept for itself: on an error the
      bytes behind a mark are lost. */
  ghost predicate AllBut(trace: seq<Event>, log: seq<Event>) {
    log == Merge(trace) || exists k, lost :: log == Put(Merge(trace), Data(k, lost))
  }

  lemma NormIsAllBut(m: M)
    ensures AllBut(m.trace, Norm(m))
  {
  }

  /** The parser `p` at `pos` of the stream is on the way to `o`. */
  ghost predicate OnCourse(p: Snapshot, data: string, pos: nat, o: AOutcome)
    requires pos <= |data|
  {
    if p.r.errno == OK then Resumable(p) && ARun(AbsOfSnapshot(p), data, pos) == o
    else o.stopped && o.at == pos && o.s.r == p.r && AllBut(p.trace, o.s.log)
  }

  function Unpaused(p: Snapshot): Snapshot {
    if p.r.errno == Paused then SetPaused(p, false) else p
  }

  lemma FinishNorm(h: Handler, m: M)
    requires MOk(m) && Transparent(h)
    ensures var m' := Finish(h, m);
            && Resumable(Unpaused(Snapshot(m'.r, m'.trace)))
            && AbsOfSnapshot(Unpaused(Snapshot(m'.r, m'.trace))) == AbsOf(m)
  {
    if m.span.Marked? {
      MergeOne(m.trace, Data(m.span.kind, m.span.bytes + ""));
      assert m.span.bytes + "" == m.span.bytes;
      PutEnds(Merge(m.trace), m.span.kind, m.span.bytes);
      FinishOk(h, m);
      DataSim(h, m, m.span.kind, "");
    }
  }

  lemma StopNorm(m: M)
    requires RegsOk(m.r) && m.span.NoSpan? && SpanOk(m.r.state, NoSpan) && m.r.errno in {OK, Paused}
    ensures Resumable(Unpaused(Snapshot(m.r, m.trace)))
    ensures AbsOfSnapshot(Unpaused(Snapshot(m.r, m.trace))) == Abs(m.r.(errno := OK), Norm(m))
  {
  }

  /** Whatever the callbacks do: the end of a buffer leaves a parser that can be given more bytes. */
  lemma FinishResumes(h: Handler, m: M)
    requires MOk(m)
    ensures var m' := Finish(h, m); m'.r.errno in {OK, Paused} ==> Resumable(Unpaused(Snapshot(m'.r, m'.trace)))
  {
    if m.span.Marked? {
      MergeOne(m.trace, Data(m.span.kind, m.span.bytes + ""));
      PutEnds(Merge(m.trace), m.span.kind, m.span.bytes + "");
      FinishOk(h, m);
    }
  }

  /** Every call on a parser of any type, with any callbacks, leaves an error or a parser that can be given more
      bytes. */
  lemma CallResumes(h: Handler, p: Snapshot, data: string)
    requires Resumable(p)
    ensures var c := Call(h, p, data); c.p.r.errno in {OK, Paused} ==> Resumable(Unpaused(c.p))
  {
    hide Run, MOk, RegsOk, SpanOk, Norm, Begin;
    NoErrorYet(p);
    if data == "" {
      EofResumes(h, p);
    } else {
      var m := Begin(p.r, p.trace);
      BeginNorm(p);
      RunOk(h, m, data, 0);
      CallIsRun(h, p, data);
      var o := Run(h, m, data, 0);
      if !o.stopped {
        FinishResumes(h, o.m);
      } else if o.m.r.errno in {OK, Paused} {
        StopNorm(o.m);
      }
    }
  }

  lemma EofResumes(h: Handler, p: Snapshot)
    requires Resumable(p)
    ensures var c := AtEof(h, p); c.p.r.errno in {OK, Paused} ==> Resumable(Unpaused(c.p))
  {
    hide Merge;
  }

  ghost function Life(p: Snapshot, uses: seq<HttpAssertions.Use>): Snapshot
    decreases |uses|
  {
    if uses == [] then p else Life(HttpAssertions.After(p, uses[0]), uses[1..])
  }

  lemma {:induction false} LifeResumes(p: Snapshot, uses: seq<HttpAssertions.Use>)
    requires p.r.errno in {OK, Paused} ==> Resumable(Unpaused(p))
    ensures var p' := Life(p, uses); p'.r.errno in {OK, Paused} ==> Resumable(Unpaused(p'))
    decreases |uses|
  {
    hide Call, Resumable;
    if uses != [] {
      if uses[0].Execute? && p.r.errno == OK {
        CallResumes(uses[0].h, p, uses[0].data);
      } else if uses[0].Execute? {
        CallAfterError(uses[0].h, p, uses[0].data);
      }
      LifeResumes(HttpAssertions.After(p, uses[0]), uses[1..]);
    }
  }

  /** A parser of any type that has been through any calls and pauses, and has no error, can be given more bytes. */
  lemma ReachableIsResumable(t: ParserType, uses: seq<HttpAssertions.Use>)
    ensures var p := Life(Init(t), uses); p.r.errno in {OK, Paused} ==> Resumable(Unpaused(p))
  {
    assert Resumable(Init(t));
    LifeResumes(Init(t), uses);
  }

  lemma NoErrorYet(p: Snapshot)
    requires Resumable(p)
    ensures p.r.errno == OK
  {
  }

  /** One call with a piece of the stream. */
  lemma CallSim(h: Handler, p: Snapshot, data: string, pos: nat, n: nat)
    requires Resumable(p) && Transparent(h) && 0 < n && pos + n <= |data|
    requires (!Concealed(AbsOfSnapshot(p), data, pos, false) || n == 1) && !Upgraded(ARun(AbsOfSnapshot(p), data, pos))
    ensures var c := Call(h, p, data[pos..pos + n]);
            && c.used <= n && OnCourse(Unpaused(c.p), data, pos + c.used, ARun(AbsOfSnapshot(p), data, pos))
            && (!Concealed(AbsOfSnapshot(p), data, pos, false) && Unpaused(c.p).r.errno == OK ==>
                  !Concealed(AbsOfSnapshot(Unpaused(c.p)), data, pos + c.used, false))
  {
    hide Run, ARun, MOk, RegsOk, SpanOk, Norm, Transparent, Resumable, Call, Begin, Concealed;
    var m := Begin(p.r, p.trace);
    var slice := data[pos..pos + n];
    BeginNorm(p);
    NoErrorYet(p);
    RunSim(h, m, data, pos, n, 0);
    RunOk(h, m, slice, 0);
    CallIsRun(h, p, slice);
    var o := Run(h, m, slice, 0);
    if !o.stopped {
      FinishNorm(h, o.m);
    } else if o.m.r.errno in {OK, Paused} {
      StopNorm(o.m);
    } else {
      NormIsAllBut(o.m);
    }
  }

  // ----- joining callbacks loses nothing -----

  /** All data of one kind, in order. */
  function AllData(log: seq<Event>, k: DataKind): string {
    if log == [] then ""
    else
      var n := |log| - 1;
      AllData(log[..n], k) + if log[n].Data? && log[n].kind == k then log[n].bytes else ""
  }

  /** The callbacks, with the data taken out. */
  function Kinds(log: seq<Event>): seq<Event> {
    if log == [] then []
    else
      var n := |log| - 1;
      var e := if log[n].Data? then Data(log[n].kind, "") else log[n];
      var before := Kinds(log[..n]);
      if e.Data? && before != [] && before[|before| - 1] == e then before else before + [e]
  }

  lemma PutKeeps(log: seq<Event>, e: Event, k: DataKind)
    ensures AllData(Put(log, e), k) == AllData(log, k) + if e.Data? && e.kind == k then e.bytes else ""
  {
    var n := |log|;
    if e.Data? && log != [] && log[n - 1].Data? && log[n - 1].kind == e.kind {
      assert Put(log, e)[..n - 1] == log[..n - 1];
    } else {
      assert (log + [e])[..n] == log;
    }
  }

  lemma PutKinds(log: seq<Event>, e: Event)
    ensures Kinds(Put(log, e)) == Kinds(log + [e])
  {
    var n := |log|;
    assert (log + [e])[..n] == log;
    if e.Data? && log != [] && log[n - 1].Data? && log[n - 1].kind == e.kind {
      assert Put(log, e)[..n - 1] == log[..n - 1];
    }
  }

  lemma KindsMore(log: seq<Event>, log': seq<Event>, e: Event)
    requires Kinds(log) == Kinds(log')
    ensures Kinds(log + [e]) == Kinds(log' + [e])
  {
    assert (log + [e])[..|log|] == log && (log' + [e])[..|log'|] == log';
  }

  /** No two neighbours are data of one kind. */
  predicate IsJoined(log: seq<Event>) {
    forall i :: 0 < i < |log| && log[i].Data? && log[i - 1].Data? ==> log[i].kind != log[i - 1].kind
  }

  /** Joined callbacks have the data of each kind that the callbacks had, in the same places among the other callbacks,
      which are unchanged. */
  lemma {:induction false} JoiningLosesNothing(trace: seq<Event>, k: DataKind)
    ensures AllData(Merge(trace), k) == AllData(trace, k) && Kinds(Merge(trace)) == Kinds(trace)
    ensures IsJoined(Merge(trace))
  {
    hide Put, AllData, Kinds;
    if trace == [] {
      assert Merge(trace) == trace;
    } else {
      var n := |trace| - 1;
      var log, e := Merge(trace[..n]), trace[n];
      JoiningLosesNothing(trace[..n], k);
      PutKeeps(log, e, k);
      PutKinds(log, e);
      PutJoins(log, e);
      KindsMore(log, trace[..n], e);
      assert trace[..n] + [e] == trace;
      PutKeepsLast(trace[..n], e, k);
    }
  }

  lemma PutKeepsLast(trace: seq<Event>, e: Event, k: DataKind)
    ensures AllData(trace + [e], k) == AllData(trace, k) + if e.Data? && e.kind == k then e.bytes else ""
  {
    assert (trace + [e])[..|trace|] == trace;
  }

  lemma PutJoins(log: seq<Event>, e: Event)
    requires IsJoined(log)
    ensures IsJoined(Put(log, e))
  {
  }

  /** The next `n` bytes of the stream, with callbacks `h`. */
  datatype Feed = Feed(h: Handler, n: nat)

  /** A program that feeds a stream to the parser piece by piece. A paused parser is unpaused and
      goes on with the first byte that was not parsed. */
  ghost function Drive(p: Snapshot, data: string, pos: nat, feeds: seq<Feed>): (Snapshot, nat)
    requires pos <= |data|
    decreases |feeds|
  {
    if feeds == [] || p.r.errno != OK then (p, pos)
    else
      var n := if feeds[0].n <= |data| - pos then feeds[0].n else |data| - pos;
      if n == 0 then Drive(p, data, pos, feeds[1..])
      else
        var c := Call(feeds[0].h, p, data[pos..pos + n]);
        Drive(Unpaused(c.p), data, pos + c.used, feeds[1..])
  }

  /** Segmentation invariance and pause transparency: however the stream is cut into calls, and wherever
      transparent callbacks pause, the parser stays on the course of the stream as a whole, unless the stream fails at
      a byte that a call may conceal. */
  lemma {:induction false} DriveFollowsStream(p: Snapshot, data: string, pos: nat, feeds: seq<Feed>)
    requires Resumable(p) && pos <= |data|
    requires forall f | f in feeds :: Transparent(f.h)
    requires !Concealed(AbsOfSnapshot(p), data, pos, false) || forall f | f in feeds :: f.n == 1
    requires !Upgraded(ARun(AbsOfSnapshot(p), data, pos))
    ensures var (p', pos') := Drive(p, data, pos, feeds);
            pos' <= |data| && OnCourse(p', data, pos', ARun(AbsOfSnapshot(p), data, pos))
    decreases |feeds|
  {
    hide ARun, Run, Transparent, Resumable, Merge, Call, Concealed, Upgraded, AllBut;
    NoErrorYet(p);
    if feeds != [] {
      var n := if feeds[0].n <= |data| - pos then feeds[0].n else |data| - pos;
      if n == 0 {
        DriveFollowsStream(p, data, pos, feeds[1..]);
      } else {
        CallSim(feeds[0].h, p, data, pos, n);
        var c := Call(feeds[0].h, p, data[pos..pos + n]);
        if Unpaused(c.p).r.errno == OK {
          DriveFollowsStream(Unpaused(c.p), data, pos + c.used, feeds[1..]);
        } else {
          assert Drive(Unpaused(c.p), data, pos + c.used, feeds[1..]) == (Unpaused(c.p), pos + c.used);
        }
      }
    }
  }

  /** Two ways of feeding a stream to the end leave the same parser and the same callbacks, joined. */
  lemma AnyTwoFeedsAgree(p: Snapshot, data: string, one: seq<Feed>, two: seq<Feed>)
    requires Resumable(p)
    requires forall f | f in one + two :: Transparent(f.h)
    requires !Concealed(AbsOfSnapshot(p), data, 0, false) && !Upgraded(ARun(AbsOfSnapshot(p), data, 0))
    requires Drive(p, data, 0, one).1 == |data| && Drive(p, data, 0, one).0.r.errno == OK
    requires Drive(p, data, 0, two).1 == |data| && Drive(p, data, 0, two).0.r.errno == OK
    ensures var (p1, _) := Drive(p, data, 0, one);
            var (p2, _) := Drive(p, data, 0, two);
            p1.r == p2.r && Merge(p1.trace) == Merge(p2.trace)
  {
    DriveFollowsStream(p, data, 0, one);
    DriveFollowsStream(p, data, 0, two);
  }

  /** Callbacks that return 0 and never pause. */
  ghost predicate Ordinary(h: Handler) {
    forall t :: h(t) == Resp(0, false)
  }

  lemma OrdinaryNeverPauses(h: Handler)
    requires Ordinary(h)
    ensures NeverPauses(h)
  {
  }

  lemma {:induction false} RunKeepsGoing(h: Handler, m: M, data: string, i: nat)
    requires Ordinary(h) && MOk(m) && i <= |data|
    ensures Run(h, m, data, i).m.r.errno != Paused
    decreases |data| - i, Rank(m.r.state)
  {
    hide Transition, Do, Ordinary, NeverPauses;
    OrdinaryNeverPauses(h);
    NotPaused(m);
    if i == |data| {
      RunAtEnd(h, m, data);
    } else {
      DoKeepsGoing(h, m, data[i]);
      DoOk(h, m, data[i]);
      SpecStep(h, m, data, i);
      match Do(h, m, data[i])
      case Next(m') => RunKeepsGoing(h, m', data, i + 1);
      case Again(m') => RunKeepsGoing(h, m', data, i);
      case Halt(_, _) =>
    }
  }

  function Total(feeds: seq<Feed>): nat {
    if feeds == [] then 0 else feeds[0].n + Total(feeds[1..])
  }

  /** A call whose callbacks do not pause takes all it is given of a stream without an end. */
  lemma CallTakesAll(h: Handler, p: Snapshot, data: string, pos: nat, n: nat)
    requires Resumable(p) && Ordinary(h) && 0 < n && pos + n <= |data| && !ARun(AbsOfSnapshot(p), data, pos).stopped
    ensures var c := Call(h, p, data[pos..pos + n]); c.used == n && c.p.r.errno == OK
  {
    hide Run, ARun, MOk, RegsOk, SpanOk, Norm, Transparent, Resumable, Begin, Concealed;
    var m := Begin(p.r, p.trace);
    var slice := data[pos..pos + n];
    BeginNorm(p);
    NoErrorYet(p);
    OrdinaryIsTransparent(h);
    ConcealedStops(AbsOfSnapshot(p), data, pos, false);
    RunSim(h, m, data, pos, n, 0);
    RunKeepsGoing(h, m, slice, 0);
    var o := Run(h, m, slice, 0);
    NotPaused(o.m);
    FinishNorm(h, o.m);
  }

  lemma OrdinaryIsTransparent(h: Handler)
    requires Ordinary(h)
    ensures Transparent(h)
  {
  }

  /** Callbacks that do not pause reach the end of such a stream. */
  lemma {:induction false} OrdinaryFeedsReachTheEnd(p: Snapshot, data: string, pos: nat, feeds: seq<Feed>)
    requires Resumable(p) && pos <= |data| && !ARun(AbsOfSnapshot(p), data, pos).stopped
    requires forall f | f in feeds :: Ordinary(f.h)
    requires Total(feeds) >= |data| - pos
    ensures Drive(p, data, pos, feeds).1 == |data| && Drive(p, data, pos, feeds).0.r.errno == OK
    decreases |feeds|
  {
    hide ARun, Run, Transparent, Ordinary, Resumable, Merge, Call, AllBut, Concealed;
    NoErrorYet(p);
    if feeds != [] {
      var n := if feeds[0].n <= |data| - pos then feeds[0].n else |data| - pos;
      if n == 0 {
        OrdinaryFeedsReachTheEnd(p, data, pos, feeds[1..]);
      } else {
        OrdinaryIsTransparent(feeds[0].h);
        ConcealedStops(AbsOfSnapshot(p), data, pos, false);
        CallSim(feeds[0].h, p, data, pos, n);
        CallTakesAll(feeds[0].h, p, data, pos, n);
        var c := Call(feeds[0].h, p, data[pos..pos + n]);
        OrdinaryFeedsReachTheEnd(c.p, data, pos + n, feeds[1..]);
      }
    }
  }
}
