/** The small recognizers inside the parser decide exactly the string tests they stand for:
    special header names, "chunked", and the request methods. */
module HttpNames {
  import opened Bytes
  import opened HttpTypes
  import opened HttpAutomaton
  import opened HttpInvariant
  import opened HttpStream
  import opened HttpFeed

  function LowerName(name: string): (w: string)
    ensures |w| == |name|
  {
    if name == "" then "" else LowerName(name[..|name| - 1]) + [TokenLower(name[|name| - 1])]
  }

  predicate AreTokens(name: string) {
    forall k :: 0 <= k < |name| ==> IsToken(name[k])
  }

  /** The header-name recognizer after a whole name. */
  function Recognize(name: string): (HState, nat)
    requires name != ""
  {
    var n := |name| - 1;
    if n == 0 then (FieldFirst(TokenLower(name[0])), 0)
    else var (h, i) := Recognize(name[..n]); FieldNext(h, i, TokenLower(name[n]))
  }

  predicate Begins(w: string, word: string) {
    |w| <= |word| && w == word[..|w|]
  }

  /** What the state of the recognizer says about the name `w` read so far. */
  ghost predicate Means(h: HState, i: nat, w: string) {
    if h.C? then w == "c" && i == 0
    else if h.CO? then w == "co" && i == 1
    else if h.CON? then w == "con" && i == 2
    else if h.MatchingConnection? then 3 <= i < 9 && Matched(w, CONNECTION, i)
    else if h.MatchingContentLength? then 3 <= i < 13 && Matched(w, CONTENT_LENGTH, i)
    else if h.MatchingProxyConnection? then i < 15 && Matched(w, PROXY_CONNECTION, i)
    else if h.MatchingTransferEncoding? then i < 16 && Matched(w, TRANSFER_ENCODING, i)
    else if h.MatchingUpgrade? then i < 6 && Matched(w, UPGRADE, i)
    else if h.Connection? then w == CONNECTION || w == PROXY_CONNECTION
    else if h.ContentLength? then w == CONTENT_LENGTH
    else if h.TransferEncoding? then w == TRANSFER_ENCODING
    else if h.Upgrade? then w == UPGRADE
    else h.General? && NoSpecialBeginning(w)
  }

  predicate Matched(w: string, word: string, i: nat) {
    i < |word| && w == word[..i + 1]
  }

  predicate NoSpecialBeginning(w: string) {
    !Begins(w, CONNECTION) && !Begins(w, PROXY_CONNECTION) && !Begins(w, CONTENT_LENGTH)
    && !Begins(w, TRANSFER_ENCODING) && !Begins(w, UPGRADE)
  }

  /** A name that differs from a word at some letter of both, or goes on behind it, does not begin it. */
  lemma Differs(w: string, word: string, k: nat)
    requires k < |w| && (k < |word| ==> w[k] != word[k])
    ensures !Begins(w, word)
  {
  }

  lemma FirstLetter(w: string)
    requires w != ""
    ensures w[0] != 'c' ==> !Begins(w, CONNECTION) && !Begins(w, CONTENT_LENGTH)
    ensures w[0] != 'p' ==> !Begins(w, PROXY_CONNECTION)
    ensures w[0] != 't' ==> !Begins(w, TRANSFER_ENCODING)
    ensures w[0] != 'u' ==> !Begins(w, UPGRADE)
  {
  }

  lemma LongerName(w: string, word: string, c: char)
    requires !Begins(w, word) || w == word
    ensures !Begins(w + [c], word)
  {
  }

  lemma FirstMeans(c: char)
    ensures Means(FieldFirst(c), 0, [c])
  {
    FirstLetter([c]);
    assert FieldFirst(c).General? ==> c != 'c' && c != 'p' && c != 't' && c != 'u';
    if c == 'p' {
      assert Matched([c], PROXY_CONNECTION, 0);
    } else if c == 't' {
      assert Matched([c], TRANSFER_ENCODING, 0);
    } else if c == 'u' {
      assert Matched([c], UPGRADE, 0);
    }
  }

  /** One more byte of a word that has been matched up to `i`. */
  lemma MatchedStep(w: string, word: string, i: nat, c: char)
    requires Matched(w, word, i) && i + 1 < |word|
    ensures w + [c] != "" && (w + [c])[0] == word[0]
    ensures c == word[i + 1] ==> Matched(w + [c], word, i + 1) && (i + 2 == |word| ==> w + [c] == word)
    ensures c != word[i + 1] ==> !Begins(w + [c], word)
  {
    if c != word[i + 1] {
      Differs(w + [c], word, i + 1);
    }
  }

  lemma GeneralStaysGeneral(w: string, c: char)
    requires NoSpecialBeginning(w)
    ensures NoSpecialBeginning(w + [c])
  {
    hide Begins;
    LongerName(w, CONNECTION, c);
    LongerName(w, PROXY_CONNECTION, c);
    LongerName(w, CONTENT_LENGTH, c);
    LongerName(w, TRANSFER_ENCODING, c);
    LongerName(w, UPGRADE, c);
  }

  /** A name goes on behind a special name. */
  lemma SpecialEnds(w: string, c: char)
    requires w == CONNECTION || w == PROXY_CONNECTION || w == CONTENT_LENGTH || w == TRANSFER_ENCODING || w == UPGRADE
    ensures NoSpecialBeginning(w + [c])
  {
    FirstLetter(w + [c]);
    if w == CONNECTION {
      Differs(w + [c], CONTENT_LENGTH, 3);
    } else if w == CONTENT_LENGTH {
      Differs(w + [c], CONNECTION, 3);
    }
    LongerName(w, w, c);
  }

  /** The first three letters of "connection" and "content-length" are the same. */
  lemma ConStep(w: string, c: char)
    requires w == "c" || w == "co" || w == "con"
    ensures w == "c" && c != 'o' ==> NoSpecialBeginning(w + [c])
    ensures w == "co" && c != 'n' ==> NoSpecialBeginning(w + [c])
    ensures w == "con" && c != 'n' && c != 't' ==> NoSpecialBeginning(w + [c])
    ensures w == "con" && c == 'n' ==> Matched(w + [c], CONNECTION, 3)
    ensures w == "con" && c == 't' ==> Matched(w + [c], CONTENT_LENGTH, 3)
  {
    var v := w + [c];
    FirstLetter(v);
    assert CONNECTION[..4] == "conn" && CONTENT_LENGTH[..4] == "cont";
    if w == "c" && c != 'o' {
      Differs(v, CONNECTION, 1);
      Differs(v, CONTENT_LENGTH, 1);
    } else if w == "co" && c != 'n' {
      Differs(v, CONNECTION, 2);
      Differs(v, CONTENT_LENGTH, 2);
    } else if w == "con" && c != 'n' && c != 't' {
      Differs(v, CONNECTION, 3);
      Differs(v, CONTENT_LENGTH, 3);
    }
  }

  /** A long enough beginning of "connection" is none of "content-length", and the reverse. */
  lemma MatchedApart(w: string, i: nat)
    requires i >= 3
    ensures Matched(w, CONNECTION, i) ==> w[3] == 'n' && !Begins(w, CONTENT_LENGTH)
    ensures Matched(w, CONTENT_LENGTH, i) ==> w[3] == 't' && !Begins(w, CONNECTION)
  {
    if Matched(w, CONNECTION, i) {
      Differs(w, CONTENT_LENGTH, 3);
    }
    if Matched(w, CONTENT_LENGTH, i) {
      Differs(w, CONNECTION, 3);
    }
  }

  lemma ConnectionStep(w: string, i: nat, c: char)
    requires Means(MatchingConnection, i, w)
    ensures Means(FieldNext(MatchingConnection, i, c).0, i + 1, w + [c])
  {
    MatchedStep(w, CONNECTION, i, c);
    MatchedApart(w, i);
    if c != CONNECTION[i + 1] {
      FirstLetter(w + [c]);
      Differs(w + [c], CONTENT_LENGTH, 3);
    }
  }

  lemma ContentLengthStep(w: string, i: nat, c: char)
    requires Means(MatchingContentLength, i, w)
    ensures Means(FieldNext(MatchingContentLength, i, c).0, i + 1, w + [c])
  {
    MatchedStep(w, CONTENT_LENGTH, i, c);
    MatchedApart(w, i);
    if c != CONTENT_LENGTH[i + 1] {
      FirstLetter(w + [c]);
      Differs(w + [c], CONNECTION, 3);
    }
  }

  lemma OtherNameStep(h: HState, w: string, i: nat, c: char)
    requires Means(h, i, w) && (h.MatchingProxyConnection? || h.MatchingTransferEncoding? || h.MatchingUpgrade?)
    ensures Means(FieldNext(h, i, c).0, i + 1, w + [c])
  {
    FirstLetter(w + [c]);
    match h
    case MatchingProxyConnection => MatchedStep(w, PROXY_CONNECTION, i, c);
    case MatchingTransferEncoding => MatchedStep(w, TRANSFER_ENCODING, i, c);
    case MatchingUpgrade => MatchedStep(w, UPGRADE, i, c);
  }

  lemma StepMeans(h: HState, i: nat, w: string, c: char)
    requires Means(h, i, w) && c != ' '
    ensures Means(FieldNext(h, i, c).0, FieldNext(h, i, c).1, w + [c])
  {
    match h
    case General => GeneralStaysGeneral(w, c);
    case C => ConStep(w, c);
    case CO => ConStep(w, c);
    case CON => ConStep(w, c);
    case MatchingConnection => ConnectionStep(w, i, c);
    case MatchingContentLength => ContentLengthStep(w, i, c);
    case MatchingProxyConnection => OtherNameStep(h, w, i, c);
    case MatchingTransferEncoding => OtherNameStep(h, w, i, c);
    case MatchingUpgrade => OtherNameStep(h, w, i, c);
    case _ => SpecialEnds(w, c);
  }

  lemma {:induction false} RecognizeMeans(name: string)
    requires name != "" && AreTokens(name)
    ensures Means(Recognize(name).0, Recognize(name).1, LowerName(name))
  {
    hide Means, FieldNext;
    var n := |name| - 1;
    if n == 0 {
      FirstMeans(TokenLower(name[0]));
      assert LowerName(name) == [TokenLower(name[0])];
    } else {
      RecognizeMeans(name[..n]);
      var (h, i) := Recognize(name[..n]);
      StepMeans(h, i, LowerName(name[..n]), TokenLower(name[n]));
    }
  }

  /** At the colon: the recognizer is in a special state exactly for the special names. */
  lemma RecognizesExactly(name: string)
    requires name != "" && AreTokens(name)
    ensures var h, w := Recognize(name).0, LowerName(name);
            && (h == Connection <==> w == "connection" || w == "proxy-connection")
            && (h == ContentLength <==> w == "content-length")
            && (h == TransferEncoding <==> w == "transfer-encoding")
            && (h == Upgrade <==> w == "upgrade")
  {
    RecognizeMeans(name);
    MeansExactly(Recognize(name).0, Recognize(name).1, LowerName(name));
  }

  lemma MeansExactly(h: HState, i: nat, w: string)
    requires Means(h, i, w)
    ensures h == Connection <==> w == CONNECTION || w == PROXY_CONNECTION
    ensures h == ContentLength <==> w == CONTENT_LENGTH
    ensures h == TransferEncoding <==> w == TRANSFER_ENCODING
    ensures h == Upgrade <==> w == UPGRADE
  {
    assert h.General? ==> w != CONNECTION && w != PROXY_CONNECTION && w != CONTENT_LENGTH && w != TRANSFER_ENCODING
                          && w != UPGRADE by {
      assert Begins(CONNECTION, CONNECTION) && Begins(PROXY_CONNECTION, PROXY_CONNECTION);
      assert Begins(CONTENT_LENGTH, CONTENT_LENGTH) && Begins(TRANSFER_ENCODING, TRANSFER_ENCODING);
      assert Begins(UPGRADE, UPGRADE);
    }
    assert h == MatchingConnection ==> |w| < 10 && w[3] == 'n';
    assert h == MatchingContentLength ==> |w| < 14 && w[3] == 't';
    assert h == MatchingProxyConnection ==> |w| < 16 && w[0] == 'p';
    assert h == MatchingTransferEncoding ==> |w| < 17 && w[0] == 't';
    assert h == MatchingUpgrade ==> |w| < 7 && w[0] == 'u';
  }

  /** The parser behind a whole header name. */
  function Named(s: Abs, name: string): Abs
    requires name != ""
  {
    var (h, i) := Recognize(name);
    Abs(s.r.(state := HeaderField, hstate := h, index := i), Put(s.log, Data(Field, name)))
  }

  lemma FirstNameAct(r: Regs, ch: char)
    requires r.state.HeaderFieldStart? && IsToken(ch)
    ensures Transition(r, ch, false) ==
            Go(r.(state := HeaderField, hstate := FieldFirst(TokenLower(ch)), index := 0), Open(Field), Quiet, Advance)
    ensures ch != CR && ch != LF
  {
    hide FieldFirst, FieldNext;
  }

  lemma NextNameAct(r: Regs, ch: char)
    requires r.state.HeaderField? && IsToken(ch)
    ensures var (h, i) := FieldNext(r.hstate, r.index, TokenLower(ch));
            Transition(r, ch, false) == Go(r.(hstate := h, index := i), Keep, Quiet, Advance)
  {
    hide FieldFirst, FieldNext;
  }

  /** A byte that opens or continues a span of data. */
  lemma DataByte(s: Abs, ch: char, r: Regs, mark: MarkOp, k: DataKind)
    requires Transition(s.r, ch, false) == Go(r, mark, Quiet, Advance)
    requires mark == Open(k) || (mark.Keep? && RuleOf(r.state) == Always(k))
    requires RuleOf(r.state) in {Always(k), Sometimes(k)}
    ensures ADo(s, ch) == ANext(Abs(r, Put(s.log, Data(k, [ch]))))
  {
    hide Transition, Put;
    PutTwice(s.log, k, "", [ch]);
    assert "" + [ch] == [ch];
  }

  lemma FirstNameByte(s: Abs, ch: char)
    requires s.r.state.HeaderFieldStart? && IsToken(ch)
    ensures ADo(s, ch) == ANext(Named(s, [ch]))
  {
    hide ADo, Put, FieldFirst;
    FirstNameAct(s.r, ch);
    DataByte(s, ch, s.r.(state := HeaderField, hstate := FieldFirst(TokenLower(ch)), index := 0), Open(Field), Field);
  }

  lemma NextNameByte(s: Abs, name: string, ch: char)
    requires name != "" && IsToken(ch)
    ensures ADo(Named(s, name), ch) == ANext(Named(s, name + [ch]))
  {
    hide ADo, Put, FieldFirst, FieldNext;
    assert (name + [ch])[..|name|] == name;
    var r := Named(s, name).r;
    var (h, i) := FieldNext(r.hstate, r.index, TokenLower(ch));
    NextNameAct(r, ch);
    DataByte(Named(s, name), ch, r.(hstate := h, index := i), Keep, Field);
    PutTwice(s.log, Field, name, [ch]);
  }

  /** Reading a header name. */
  lemma {:induction false} ThroughName(s: Abs, name: string)
    requires s.r.state.HeaderFieldStart? && name != "" && AreTokens(name)
    ensures Through(s, name, Named(s, name))
  {
    hide Through, Named, ADo, IsToken;
    var n := |name| - 1;
    if n == 0 {
      assert name == [name[0]];
      FirstNameByte(s, name[0]);
      ThroughByte(s, name[0], Named(s, name));
    } else {
      ThroughName(s, name[..n]);
      NextNameByte(s, name[..n], name[n]);
      assert name == name[..n] + [name[n]];
      ThenByte(s, name[..n], Named(s, name[..n]), name[n], Named(s, name));
    }
  }
}
