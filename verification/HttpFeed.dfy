/** Reading a text from its first byte to its last, and putting texts together. */
module HttpFeed {
  import opened Bytes
  import opened HttpTypes
  import opened HttpAutomaton
  import opened HttpInvariant
  import opened HttpStream

  /** `text` takes the parser from `s` to `s'`. */
  ghost predicate Through(s: Abs, text: string, s': Abs) {
    ARun(s, text, 0) == AOutcome(s', |text|, false)
  }

  lemma {:induction false} RunShift(s: Abs, a: string, b: string, j: nat)
    requires j <= |b|
    ensures ARun(s, a + b, |a| + j) == ARun(s, b, j).(at := |a| + ARun(s, b, j).at)
    decreases |b| - j, Rank(s.r.state)
  {
    hide ADo, ARun;
    if j == |b| {
      AtEnd(s, a + b);
      AtEnd(s, b);
    } else {
      AStepRun(s, a + b, |a| + j);
      AStepRun(s, b, j);
      assert (a + b)[|a| + j] == b[j];
      match ADo(s, b[j])
      case ANext(s') => RunShift(s', a, b, j + 1);
      case AAgain(s') => RunShift(s', a, b, j);
      case AHalt(_, _) =>
    }
  }

  lemma AtEnd(s: Abs, data: string)
    ensures ARun(s, data, |data|) == AOutcome(s, |data|, false)
  {
    hide ADo;
  }

  lemma {:induction false} RunSplit(s: Abs, a: string, b: string, i: nat)
    requires i <= |a|
    ensures var o := ARun(s, a, i);
            ARun(s, a + b, i) == if o.stopped then o else ARun(o.s, a + b, |a|)
    decreases |a| - i, Rank(s.r.state)
  {
    hide ADo, ARun;
    if i == |a| {
      AtEnd(s, a);
    } else {
      AStepRun(s, a + b, i);
      AStepRun(s, a, i);
      assert (a + b)[i] == a[i];
      match ADo(s, a[i])
      case ANext(s') => RunSplit(s', a, b, i + 1);
      case AAgain(s') => RunSplit(s', a, b, i);
      case AHalt(_, _) =>
    }
  }

  /** One text after another. */
  lemma Then(s: Abs, a: string, s1: Abs, b: string, s2: Abs)
    requires Through(s, a, s1) && Through(s1, b, s2)
    ensures Through(s, a + b, s2)
  {
    RunSplit(s, a, b, 0);
    RunShift(s1, a, b, 0);
    hide ARun;
  }

  lemma Nothing(s: Abs)
    ensures Through(s, "", s)
  {
    AtEnd(s, "");
    hide ARun;
  }

  /** A byte that is consumed at once. */
  lemma ThroughByte(s: Abs, ch: char, s': Abs)
    requires ADo(s, ch) == ANext(s')
    ensures Through(s, [ch], s')
  {
    hide ADo, ARun;
    AStepRun(s, [ch], 0);
    AtEnd(s', [ch]);
  }

  /** A byte that is read again in another state first. */
  lemma ThroughAgain(s: Abs, ch: char, s1: Abs, s': Abs)
    requires ADo(s, ch) == AAgain(s1) && Through(s1, [ch], s')
    ensures Through(s, [ch], s')
  {
    hide ADo, ARun;
    AStepRun(s, [ch], 0);
  }

  lemma ThenByte(s: Abs, a: string, s1: Abs, ch: char, s2: Abs)
    requires Through(s, a, s1) && ADo(s1, ch) == ANext(s2)
    ensures Through(s, a + [ch], s2)
  {
    hide ADo, ARun;
    ThroughByte(s1, ch, s2);
    Then(s, a, s1, [ch], s2);
  }

  /** Where a byte fails, so does every text that begins with it. */
  lemma FailsAt(s: Abs, a: string, s1: Abs, ch: char, b: string, s2: Abs)
    requires Through(s, a, s1) && ADo(s1, ch) == AHalt(s2, false)
    ensures ARun(s, a + [ch] + b, 0) == AOutcome(s2, |a|, true)
  {
    hide ADo, ARun;
    AStepRun(s1, [ch] + b, 0);
    RunSplit(s, a, [ch] + b, 0);
    RunShift(s1, a, [ch] + b, 0);
    assert a + [ch] + b == a + ([ch] + b);
  }

  /** `text` takes the parser from `s` to `s'`; `stops` says that the parser stops behind its last byte, whatever
      follows. */
  ghost predicate Ends(s: Abs, text: string, s': Abs, stops: bool) {
    ARun(s, text, 0) == AOutcome(s', |text|, stops)
  }

  lemma ThenEnds(s: Abs, a: string, s1: Abs, b: string, s2: Abs, stops: bool)
    requires Through(s, a, s1) && Ends(s1, b, s2, stops)
    ensures Ends(s, a + b, s2, stops)
  {
    RunSplit(s, a, b, 0);
    RunShift(s1, a, b, 0);
    hide ARun;
  }

  /** A byte behind which the parser stops. */
  lemma EndsByte(s: Abs, ch: char, s': Abs, stops: bool)
    requires ADo(s, ch) == if stops then AHalt(s', true) else ANext(s')
    ensures Ends(s, [ch], s', stops)
  {
    hide ADo, ARun;
    AStepRun(s, [ch], 0);
    AtEnd(s', [ch]);
  }

  lemma EndsAgain(s: Abs, ch: char, s1: Abs, s': Abs, stops: bool)
    requires ADo(s, ch) == AAgain(s1) && Ends(s1, [ch], s', stops)
    ensures Ends(s, [ch], s', stops)
  {
    hide ADo, ARun;
    AStepRun(s, [ch], 0);
  }

  /** Where the parser stops, it does not look at what follows. */
  lemma StopsThere(s: Abs, text: string, s': Abs, rest: string)
    requires Ends(s, text, s', true)
    ensures ARun(s, text + rest, 0) == AOutcome(s', |text|, true)
  {
    RunSplit(s, text, rest, 0);
    hide ARun;
  }
}
