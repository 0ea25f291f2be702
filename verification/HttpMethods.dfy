/** A request method is accepted exactly if it is one of the known methods. */
module HttpMethods {
  import opened Bytes
  import opened HttpTypes
  import opened HttpAutomaton
  import opened HttpInvariant
  import opened HttpStream
  import opened HttpFeed

  datatype Guess = NoMethod | Maybe(m: Method)

  /** One more byte of a method, at position `index`. */
  function Refine(m: Method, index: nat, ch: char): Guess {
    if ch as int == 0 then NoMethod
    else if index < |MethodString(m)| && ch == MethodString(m)[index] then Maybe(m)
    else if 'A' <= ch <= 'Z' || ch == '-' then
      var (known, m') := ReviseMethod(m, index, ch);
      if known then Maybe(m') else NoMethod
    else NoMethod
  }

  /** The method the parser has in mind after the bytes `w`. */
  function GuessOf(w: string): Guess
    requires w != ""
  {
    var n := |w| - 1;
    if n == 0 then
      var (known, m) := FirstMethod(w[0]);
      if known then Maybe(m) else NoMethod
    else
      match GuessOf(w[..n])
      case NoMethod => NoMethod
      case Maybe(m) => Refine(m, n, w[n])
  }

  ghost predicate BeginsWith(w: string, m: Method) {
    |w| <= |MethodString(m)| && w == MethodString(m)[..|w|]
  }

  lemma FirstStarts(ch: char)
    ensures FirstMethod(ch).0 ==> BeginsWith([ch], FirstMethod(ch).1)
  {
    var m := FirstMethod(ch).1;
    assert FirstMethod(ch).0 ==> |MethodString(m)| > 0 && MethodString(m)[0] == ch;
  }

  ghost predicate Agrees(m: Method, index: nat, ch: char) {
    var (known, m') := ReviseMethod(m, index, ch);
    known ==>
      && 1 <= index <= |MethodString(m)| && index < |MethodString(m')| && MethodString(m')[index] == ch
      && forall k :: 0 <= k < index ==> MethodString(m')[k] == MethodString(m)[k]
  }

  lemma SomeAgree(m: Method, index: nat, ch: char)
    requires m == POST || m == PUT || m == CONNECT || m == PROPFIND
    ensures Agrees(m, index, ch)
  {
    if m == POST {
    } else if m == PUT {
    } else if m == CONNECT {
    }
  }

  lemma OthersAgree(m: Method, index: nat, ch: char)
    requires m == SUBSCRIBE || m == REPORT || m == LOCK || m == UNLOCK
    ensures Agrees(m, index, ch)
  {
    if m == SUBSCRIBE {
    } else if m == REPORT {
    } else if m == LOCK {
    }
  }

  lemma MkcolAgrees(index: nat, ch: char)
    ensures Agrees(MKCOL, index, ch)
  {
  }

  /** A revised guess agrees with the old one on everything read so far. */
  lemma ReviseAgrees(m: Method, index: nat, ch: char)
    ensures Agrees(m, index, ch)
  {
    if m == POST || m == PUT || m == CONNECT || m == PROPFIND {
      SomeAgree(m, index, ch);
    } else if m == SUBSCRIBE || m == REPORT || m == LOCK || m == UNLOCK {
      OthersAgree(m, index, ch);
    } else if m == MKCOL {
      MkcolAgrees(index, ch);
    } else {
      assert !ReviseMethod(m, index, ch).0;
    }
  }

  lemma RefineStarts(w: string, m: Method, ch: char)
    requires w != "" && BeginsWith(w, m)
    ensures Refine(m, |w|, ch).Maybe? ==> BeginsWith(w + [ch], Refine(m, |w|, ch).m)
  {
    hide MethodString, ReviseMethod;
    ReviseAgrees(m, |w|, ch);
  }

  /** The bytes read so far are the beginning of the method in mind. */
  lemma {:induction false} GuessStarts(w: string)
    requires w != ""
    ensures GuessOf(w).Maybe? ==> BeginsWith(w, GuessOf(w).m)
  {
    hide Refine, FirstMethod, BeginsWith;
    var n := |w| - 1;
    if n == 0 {
      FirstStarts(w[0]);
      assert w == [w[0]];
    } else {
      GuessStarts(w[..n]);
      if GuessOf(w[..n]).Maybe? {
        RefineStarts(w[..n], GuessOf(w[..n]).m, w[n]);
        assert w == w[..n] + [w[n]];
      }
    }
  }

  /** The method in mind after `k` bytes of `m`. */
  function InMind(m: Method, k: nat): Method {
    match m
    case PUT => if k <= 1 then POST else m
    case PATCH => if k <= 1 then POST else m
    case PROPFIND => if k <= 1 then POST else m
    case PURGE => if k <= 1 then POST else if k <= 2 then PUT else m
    case PROPPATCH => if k <= 1 then POST else if k <= 4 then PROPFIND else m
    case CHECKOUT => if k <= 1 then CONNECT else m
    case COPY => if k <= 2 then CONNECT else m
    case MOVE => if k <= 1 then MKCOL else m
    case MERGE => if k <= 1 then MKCOL else m
    case MSEARCH => if k <= 1 then MKCOL else m
    case MKACTIVITY => if k <= 2 then MKCOL else m
    case MKCALENDAR => if k <= 3 then MKCOL else m
    case SEARCH => if k <= 1 then SUBSCRIBE else m
    case SOURCE => if k <= 1 then SUBSCRIBE else m
    case REBIND => if k <= 2 then REPORT else m
    case LINK => if k <= 1 then LOCK else m
    case UNSUBSCRIBE => if k <= 2 then UNLOCK else m
    case UNBIND => if k <= 2 then UNLOCK else m
    case UNLINK => if k <= 3 then UNLOCK else m
    case _ => m
  }

  /** A capital letter or a hyphen. */
  predicate IsMethodChar(c: char) {
    c as int != 0 && c != ' ' && ('A' <= c <= 'Z' || c == '-')
  }

  lemma LettersFirst(m: Method)
    requires m.DELETE? || m.GET? || m.HEAD? || m.POST? || m.PUT? || m.CONNECT? || m.OPTIONS? || m.TRACE? || m.COPY?
             || m.LOCK? || m.MKCOL? || m.MOVE?
    ensures |MethodString(m)| >= 3 && forall k :: 0 <= k < |MethodString(m)| ==> IsMethodChar(MethodString(m)[k])
  {
  }

  lemma LettersThen(m: Method)
    requires m.PROPFIND? || m.PROPPATCH? || m.SEARCH? || m.UNLOCK? || m.BIND? || m.REBIND? || m.UNBIND? || m.ACL?
             || m.REPORT? || m.MKACTIVITY?
    ensures |MethodString(m)| >= 3 && forall k :: 0 <= k < |MethodString(m)| ==> IsMethodChar(MethodString(m)[k])
  {
  }

  lemma LettersLast(m: Method)
    requires m.CHECKOUT? || m.MERGE? || m.MSEARCH? || m.NOTIFY? || m.SUBSCRIBE? || m.UNSUBSCRIBE? || m.PATCH?
             || m.PURGE?
             || m.MKCALENDAR? || m.LINK? || m.UNLINK? || m.SOURCE?
    ensures |MethodString(m)| >= 3 && forall k :: 0 <= k < |MethodString(m)| ==> IsMethodChar(MethodString(m)[k])
  {
  }

  lemma LettersOnly(m: Method)
    ensures |MethodString(m)| >= 3
    ensures forall k :: 0 <= k < |MethodString(m)| ==>
              MethodString(m)[k] as int != 0 && MethodString(m)[k] != ' '
              && ('A' <= MethodString(m)[k] <= 'Z' || MethodString(m)[k] == '-')
  {
    if m.DELETE? || m.GET? || m.HEAD? || m.POST? || m.PUT? || m.CONNECT? || m.OPTIONS? || m.TRACE? || m.COPY?
       || m.LOCK? || m.MKCOL? || m.MOVE? {
      LettersFirst(m);
    } else if m.PROPFIND? || m.PROPPATCH? || m.SEARCH? || m.UNLOCK? || m.BIND? || m.REBIND? || m.UNBIND? || m.ACL?
              || m.REPORT? || m.MKACTIVITY? {
      LettersThen(m);
    } else {
      LettersLast(m);
    }
    hide MethodString;
  }

  /** While the guess stays the same it agrees with `m` on the next byte. */
  lemma SameGuess(m: Method, k: nat)
    requires 1 <= k < |MethodString(m)| && InMind(m, k + 1) == InMind(m, k) != m
    ensures k < |MethodString(InMind(m, k))| && MethodString(InMind(m, k))[k] == MethodString(m)[k]
  {
  }

  /** Where the guess changes, the switch changes it. */
  lemma NewGuess(m: Method, k: nat)
    requires 1 <= k < |MethodString(m)| && InMind(m, k + 1) != InMind(m, k)
    ensures ReviseMethod(InMind(m, k), k, MethodString(m)[k]) == (true, InMind(m, k + 1))
    ensures k < |MethodString(InMind(m, k))| ==> MethodString(InMind(m, k))[k] != MethodString(m)[k]
  {
    hide MethodString, InMind, ReviseMethod;
    if m.PUT? || m.PATCH? || m.PROPFIND? {
      NewFromPost(m, k);
    } else if m.PURGE? || m.PROPPATCH? {
      NewFromPut(m, k);
    } else if m.CHECKOUT? || m.COPY? {
      NewFromConnect(m, k);
    } else if m.MOVE? || m.MERGE? || m.MSEARCH? {
      NewFromMkcol(m, k);
    } else if m.MKACTIVITY? || m.MKCALENDAR? {
      NewMk(m, k);
    } else {
      NewFromOthers(m, k);
    }
  }

  /** The switch takes the guess to the next one. */
  ghost predicate Switches(m: Method, k: nat)
    requires k < |MethodString(m)|
  {
    && ReviseMethod(InMind(m, k), k, MethodString(m)[k]) == (true, InMind(m, k + 1))
    && (k < |MethodString(InMind(m, k))| ==> MethodString(InMind(m, k))[k] != MethodString(m)[k])
  }

  lemma NewFromPost(m: Method, k: nat)
    requires m.PUT? || m.PATCH? || m.PROPFIND?
    requires 1 <= k < |MethodString(m)| && InMind(m, k + 1) != InMind(m, k)
    ensures Switches(m, k)
  {
    assert k == 1;
    assert MethodString(m)[1] == if m.PUT? then 'U' else if m.PATCH? then 'A' else 'R';
  }

  lemma NewFromPut(m: Method, k: nat)
    requires m.PURGE? || m.PROPPATCH?
    requires 1 <= k < |MethodString(m)| && InMind(m, k + 1) != InMind(m, k)
    ensures Switches(m, k)
  {
    if m.PURGE? {
      assert (k == 1 && "PURGE"[1] == 'U') || (k == 2 && "PURGE"[2] == 'R');
    } else {
      assert (k == 1 && "PROPPATCH"[1] == 'R') || (k == 4 && "PROPPATCH"[4] == 'P');
    }
  }

  lemma NewFromConnect(m: Method, k: nat)
    requires m.CHECKOUT? || m.COPY?
    requires 1 <= k < |MethodString(m)| && InMind(m, k + 1) != InMind(m, k)
    ensures Switches(m, k)
  {
    if m.CHECKOUT? {
      assert k == 1 && "CHECKOUT"[1] == 'H';
    } else {
      assert k == 2 && "COPY"[2] == 'P';
    }
  }

  lemma NewFromMkcol(m: Method, k: nat)
    requires m.MOVE? || m.MERGE? || m.MSEARCH?
    requires 1 <= k < |MethodString(m)| && InMind(m, k + 1) != InMind(m, k)
    ensures Switches(m, k)
  {
    assert k == 1;
    assert MethodString(m)[1] == if m.MOVE? then 'O' else if m.MERGE? then 'E' else '-';
  }

  lemma NewMk(m: Method, k: nat)
    requires m.MKACTIVITY? || m.MKCALENDAR?
    requires 1 <= k < |MethodString(m)| && InMind(m, k + 1) != InMind(m, k)
    ensures Switches(m, k)
  {
    if m.MKACTIVITY? {
      assert k == 2 && "MKACTIVITY"[2] == 'A';
    } else {
      assert k == 3 && "MKCALENDAR"[3] == 'A';
    }
  }

  lemma NewFromOthers(m: Method, k: nat)
    requires !m.PUT? && !m.PATCH? && !m.PROPFIND? && !m.PURGE? && !m.PROPPATCH?
    requires !m.CHECKOUT? && !m.COPY? && !m.MOVE? && !m.MERGE? && !m.MSEARCH? && !m.MKACTIVITY? && !m.MKCALENDAR?
    requires 1 <= k < |MethodString(m)| && InMind(m, k + 1) != InMind(m, k)
    ensures Switches(m, k)
  {
    if m.SEARCH? || m.SOURCE? || m.REBIND? {
    } else if m.LINK? || m.UNSUBSCRIBE? {
    } else {
      assert m.UNBIND? || m.UNLINK?;
    }
  }

  lemma ThroughStep(m: Method, k: nat)
    requires 1 <= k < |MethodString(m)|
    ensures Refine(InMind(m, k), k, MethodString(m)[k]) == Maybe(InMind(m, k + 1))
  {
    hide MethodString, InMind, ReviseMethod;
    LettersOnly(m);
    if InMind(m, k + 1) != InMind(m, k) {
      NewGuess(m, k);
    } else if InMind(m, k) != m {
      SameGuess(m, k);
    }
  }

  lemma ThroughEnds(m: Method)
    ensures InMind(m, |MethodString(m)|) == m && FirstMethod(MethodString(m)[0]) == (true, InMind(m, 1))
  {
  }

  lemma {:induction false} GuessesThrough(m: Method, k: nat)
    requires 1 <= k <= |MethodString(m)|
    ensures GuessOf(MethodString(m)[..k]) == Maybe(InMind(m, k))
  {
    hide MethodString, InMind, Refine, FirstMethod;
    var w := MethodString(m)[..k];
    if k == 1 {
      ThroughEnds(m);
    } else {
      assert w[..k - 1] == MethodString(m)[..k - 1];
      GuessesThrough(m, k - 1);
      ThroughStep(m, k - 1);
    }
  }

  /** The guess behind a word is complete exactly for the known methods. */
  lemma GuessIsExact(w: string)
    requires w != ""
    ensures (GuessOf(w).Maybe? && |w| == |MethodString(GuessOf(w).m)|) <==> (exists m :: w == MethodString(m))
    ensures GuessOf(w).Maybe? && |w| == |MethodString(GuessOf(w).m)| ==> w == MethodString(GuessOf(w).m)
    ensures forall m :: w == MethodString(m) ==> GuessOf(w) == Maybe(m)
  {
    hide MethodString, Refine, FirstMethod;
    GuessStarts(w);
    if GuessOf(w).Maybe? && |w| == |MethodString(GuessOf(w).m)| {
      assert w == MethodString(GuessOf(w).m);
    }
    forall m | w == MethodString(m)
      ensures GuessOf(w) == Maybe(m)
    {
      assert MethodString(m)[..|w|] == w;
      GuessesThrough(m, |w|);
      ThroughEnds(m);
    }
  }

  /** The parser behind the bytes `w` of a method. */
  function Typed(s: Abs, w: string, m: Method): Abs {
    Abs(s.r.(flags := NO_FLAGS, clen := NO_LENGTH, meth := m, index := |w|, state := ReqMethod),
        Put(s.log, MessageBegin))
  }

  lemma FirstMethodByte(s: Abs, ch: char)
    requires s.r.state.StartReq? && ch != CR && ch != LF
    ensures var (known, m) := FirstMethod(ch);
            if known then ADo(s, ch) == ANext(Typed(s, [ch], m))
            else ADo(s, ch).AHalt? && ADo(s, ch).s.r.errno == InvalidMethod
  {
    assert FirstMethod(ch).0 ==> IsAlpha(ch);
    hide FirstMethod, Put;
  }

  lemma NextMethodByte(s: Abs, w: string, m: Method, ch: char)
    requires ch != ' ' && w != ""
    ensures match Refine(m, |w|, ch)
            case Maybe(m') => ADo(Typed(s, w, m), ch) == ANext(Typed(s, w + [ch], m'))
            case NoMethod =>
              var x := ADo(Typed(s, w, m), ch); x.AHalt? && !x.used && x.s.r.errno == InvalidMethod
  {
    hide MethodString, ReviseMethod, Put;
  }

  lemma SpaceAfterMethod(s: Abs, w: string, m: Method)
    requires w != ""
    ensures var x := ADo(Typed(s, w, m), ' ');
            if |w| == |MethodString(m)|
            then x == ANext(Typed(s, w, m).(r := Typed(s, w, m).r.(index := |w| + 1, state := ReqSpacesBeforeUrl)))
            else x.AHalt? && !x.used && x.s.r.errno == InvalidMethod
  {
    LettersOnly(m);
    hide MethodString, ReviseMethod, Put;
  }

  predicate NoSpace(w: string) {
    forall k :: 0 <= k < |w| ==> w[k] != ' '
  }

  ghost predicate Rejected(s: Abs, text: string) {
    ARun(s, text, 0).stopped && ARun(s, text, 0).s.r.errno == InvalidMethod
  }

  /** Reading the bytes of a method, as long as there is one in mind. */
  lemma {:induction false} ThroughWord(s: Abs, w: string, rest: string)
    requires s.r.state.StartReq? && w != "" && NoSpace(w) && w[0] != CR && w[0] != LF
    ensures if GuessOf(w).Maybe? then Through(s, w, Typed(s, w, GuessOf(w).m)) else Rejected(s, w + rest)
  {
    hide Through, Typed, ADo, ARun, Refine, FirstMethod;
    var n := |w| - 1;
    assert w == w[..n] + [w[n]];
    if n == 0 {
      assert w == [w[0]];
      FirstMethodByte(s, w[0]);
      if FirstMethod(w[0]).0 {
        ThroughByte(s, w[0], Typed(s, w, FirstMethod(w[0]).1));
      } else {
        Nothing(s);
        AStepRun(s, w + rest, 0);
      }
    } else {
      ThroughWord(s, w[..n], [w[n]] + rest);
      assert w[..n] + ([w[n]] + rest) == w + rest;
      if GuessOf(w[..n]).Maybe? {
        var m := GuessOf(w[..n]).m;
        NextMethodByte(s, w[..n], m, w[n]);
        if Refine(m, n, w[n]).Maybe? {
          ThenByte(s, w[..n], Typed(s, w[..n], m), w[n], Typed(s, w, GuessOf(w).m));
        } else {
          FailsAt(s, w[..n], Typed(s, w[..n], m), w[n], rest, ADo(Typed(s, w[..n], m), w[n]).s);
        }
      }
    }
  }

  /** The methods of HTTP itself and of WebDAV. */
  const WEB_METHODS: set<string> := {
    "DELETE", "GET", "HEAD", "POST", "PUT", "CONNECT", "OPTIONS", "TRACE", "COPY", "LOCK", "MKCOL", "MOVE",
    "PROPFIND", "PROPPATCH", "SEARCH", "UNLOCK", "BIND", "REBIND", "UNBIND", "ACL"
  }

  /** Those of Subversion, UPnP, RFC 5789, caches, CalDAV, RFC 2068 and Icecast. */
  const OTHER_METHODS: set<string> := {
    "REPORT", "MKACTIVITY", "CHECKOUT", "MERGE", "M-SEARCH", "NOTIFY", "SUBSCRIBE", "UNSUBSCRIBE", "PATCH",
    "PURGE", "MKCALENDAR", "LINK", "UNLINK", "SOURCE"
  }

  lemma Listed(m: Method)
    ensures MethodString(m) in WEB_METHODS || MethodString(m) in OTHER_METHODS
    ensures (m.HEAD? <==> MethodString(m) == "HEAD") && (m.CONNECT? <==> MethodString(m) == "CONNECT")
  {
  }

  lemma SpelledWeb(w: string) returns (m: Method)
    requires w in WEB_METHODS
    ensures w == MethodString(m)
  {
    m :=
      if w == "DELETE" then DELETE else if w == "GET" then GET else if w == "HEAD" then HEAD else
      if w == "POST" then POST else if w == "PUT" then PUT else if w == "CONNECT" then CONNECT else
      if w == "OPTIONS" then OPTIONS else if w == "TRACE" then TRACE else if w == "COPY" then COPY else
      if w == "LOCK" then LOCK else if w == "MKCOL" then MKCOL else if w == "MOVE" then MOVE else
      if w == "PROPFIND" then PROPFIND else if w == "PROPPATCH" then PROPPATCH else if w == "SEARCH" then SEARCH else
      if w == "UNLOCK" then UNLOCK else if w == "BIND" then BIND else if w == "REBIND" then REBIND else
      if w == "UNBIND" then UNBIND else ACL;
  }

  lemma SpelledOther(w: string) returns (m: Method)
    requires w in OTHER_METHODS
    ensures w == MethodString(m)
  {
    m :=
      if w == "REPORT" then REPORT else if w == "MKACTIVITY" then MKACTIVITY else if w == "CHECKOUT" then CHECKOUT else
      if w == "MERGE" then MERGE else if w == "M-SEARCH" then MSEARCH else if w == "NOTIFY" then NOTIFY else
      if w == "SUBSCRIBE" then SUBSCRIBE else if w == "UNSUBSCRIBE" then UNSUBSCRIBE else
      if w == "PATCH" then PATCH else
      if w == "PURGE" then PURGE else if w == "MKCALENDAR" then MKCALENDAR else if w == "LINK" then LINK else
      if w == "UNLINK" then UNLINK else SOURCE;
  }

  lemma KnownExactly(w: string)
    ensures (w in WEB_METHODS || w in OTHER_METHODS) <==> exists m :: w == MethodString(m)
  {
    hide MethodString, WEB_METHODS, OTHER_METHODS;
    if m :| w == MethodString(m) {
      Listed(m);
    }
    if w in WEB_METHODS {
      var m := SpelledWeb(w);
    } else if w in OTHER_METHODS {
      var m := SpelledOther(w);
    }
  }

  /** A word in front of a space is accepted as a method exactly if it is a known method. Two of them are treated in a
      way of their own later, and these are what their names say. */
  lemma MethodAcceptedExactly(s: Abs, w: string)
    requires s.r.state.StartReq? && w != "" && NoSpace(w) && w[0] != CR && w[0] != LF
    ensures !Rejected(s, w + " ") <==> w in WEB_METHODS || w in OTHER_METHODS
    ensures forall m :: w == MethodString(m) ==>
              Through(s, w + " ", Typed(s, w, m).(r := Typed(s, w, m).r.(index := |w| + 1,
                  state := ReqSpacesBeforeUrl)))
    ensures forall m :: w == MethodString(m) ==> (m.HEAD? <==> w == "HEAD") && (m.CONNECT? <==> w == "CONNECT")
  {
    hide Typed, ADo, ARun, GuessOf, MethodString, WEB_METHODS, OTHER_METHODS;
    forall m: Method {
      Listed(m);
    }
    ThroughWord(s, w, " ");
    GuessIsExact(w);
    KnownExactly(w);
    if GuessOf(w).Maybe? {
      var m := GuessOf(w).m;
      SpaceAfterMethod(s, w, m);
      if |w| == |MethodString(m)| {
        var s' := Typed(s, w, m).(r := Typed(s, w, m).r.(index := |w| + 1, state := ReqSpacesBeforeUrl));
        ThenByte(s, w, Typed(s, w, m), ' ', s');
      } else {
        FailsAt(s, w, Typed(s, w, m), ' ', "", ADo(Typed(s, w, m), ' ').s);
        assert w + [' '] + "" == w + " ";
      }
    }
  }
}
