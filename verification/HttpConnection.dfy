/** What the value of a Connection header means to the parser: a list of items, in which "close" counts. */
module HttpConnection {
  import opened Bytes
  import opened HttpTypes
  import opened HttpAutomaton

  // ----- words -----

  /** The k-th byte fits the word followed by spaces; letters in either case. */
  predicate Fits(word: string, ch: char, k: nat) {
    if k < |word| then Lower(ch) == word[k] else ch == ' '
  }

  predicate AllFit(word: string, v: string) {
    forall k :: 0 <= k < |v| ==> Fits(word, v[k], k)
  }

  /** The word in any case, and possibly spaces behind it. */
  predicate Says(word: string, v: string) {
    |v| >= |word| && AllFit(word, v)
  }

  lemma FitsMore(word: string, v: string, ch: char)
    ensures AllFit(word, v + [ch]) <==> AllFit(word, v) && Fits(word, ch, |v|)
  {
    if AllFit(word, v + [ch]) {
      assert forall k :: 0 <= k < |v| ==> v[k] == (v + [ch])[k];
      assert (v + [ch])[|v|] == ch;
    }
  }

  // ----- items -----

  /** The text without the spaces in front. */
  function Strip(s: string): string {
    if s == "" then ""
    else
      var n := |s| - 1;
      if Strip(s[..n]) == "" && s[n] == ' ' then "" else Strip(s[..n]) + [s[n]]
  }

  /** The word that begins with that letter, in lower case, if the parser knows one. */
  function WordFor(c: char): string {
    if c == 'k' then KEEP_ALIVE else if c == 'c' then CLOSE else if c == 'u' then UPGRADE else ""
  }

  /** The beginning of a word that counts, but not all of it. */
  predicate Stub(x: string) {
    x != "" && var w := WordFor(Lower(x[0])); |x| < |w| && AllFit(w, x)
  }

  /** A comma behind the item ends it: an item must not be empty, must not be the mere beginning of a word that counts,
      and, unless it is the first, must begin with a token. */
  predicate Complete(item: string, first: bool) {
    var x := Strip(item);
    x != "" && !Stub(x) && (first || IsToken(Lower(x[0])))
  }

  function Last(items: seq<string>): string
    requires items != []
  {
    items[|items| - 1]
  }

  function Front(items: seq<string>): seq<string>
    requires items != []
  {
    items[..|items| - 1]
  }

  /** The last item goes on. */
  function Extended(items: seq<string>, t: string): (items': seq<string>)
    requires items != []
    ensures items' != [] && Last(items') == Last(items) + t && Front(items') == Front(items)
  {
    Front(items) + [Last(items) + t]
  }

  /** The items of a value as the parser sees them; a comma that does not end an item belongs to it. */
  function Items(v: string): (items: seq<string>)
    ensures items != []
  {
    if v == "" then [""]
    else
      var n := |v| - 1;
      var items := Items(v[..n]);
      if v[n] == ',' && Complete(Last(items), |items| == 1) then items + [""]
      else Extended(items, [v[n]])
  }

  /** The item is the word, with spaces around it. */
  predicate IsWord(word: string, item: string) {
    Says(word, Strip(item))
  }

  predicate AnyIs(word: string, items: seq<string>) {
    exists k :: 0 <= k < |items| && IsWord(word, items[k])
  }

  /** One of the items of the value is the word. */
  predicate Asks(word: string, v: string) {
    AnyIs(word, Items(v))
  }

  lemma AnyMore(word: string, items: seq<string>, item: string)
    ensures AnyIs(word, items + [item]) <==> AnyIs(word, items) || IsWord(word, item)
  {
    hide IsWord;
    var all := items + [item];
    if IsWord(word, item) {
      assert IsWord(word, all[|items|]);
    }
    if AnyIs(word, items) {
      var k :| 0 <= k < |items| && IsWord(word, items[k]);
      assert IsWord(word, all[k]);
    }
    if AnyIs(word, all) {
      var k :| 0 <= k < |all| && IsWord(word, all[k]);
      assert k < |items| ==> IsWord(word, items[k]);
    }
  }

  // ----- the recognizer -----

  function Matching(c: char): HState {
    if c == 'k' then MatchingKeepAlive else if c == 'c' then MatchingClose else MatchingConnUpgrade
  }

  function Matched(c: char): HState {
    if c == 'k' then ConnectionKeepAlive else if c == 'c' then ConnectionClose else ConnectionUpgrade
  }

  /** What the recognizer knows of the item at hand, of which `x` has been read. */
  ghost predicate ItemMeans(h: HState, index: nat, first: bool, x: string) {
    if x == "" then !first && h.ConnTokenStart? && index == 0
    else if !first && !IsToken(Lower(x[0])) then h.General?
    else
      var c := Lower(x[0]);
      var w := WordFor(c);
      if w == "" || !AllFit(w, x) then h.ConnToken?
      else if |x| < |w| then h == Matching(c) && index == |x| - 1
      else h == Matched(c)
  }

  /** The item is at its end: the recognizer knows whether a comma ends it and which word it is, if any. */
  lemma AtItemEnd(h: HState, index: nat, first: bool, item: string)
    requires ItemMeans(h, index, first, Strip(item))
    ensures IsWord(CLOSE, item) <==> h.ConnectionClose?
    ensures IsWord(KEEP_ALIVE, item) <==> h.ConnectionKeepAlive?
    ensures IsWord(UPGRADE, item) <==> h.ConnectionUpgrade?
    ensures Complete(item, first)
      <==> h.ConnToken? || h.ConnectionKeepAlive? || h.ConnectionClose? || h.ConnectionUpgrade?
  {
    var x := Strip(item);
    hide Strip;
    if x != "" {
      var c := Lower(x[0]);
      OnlyWord(CLOSE, x);
      OnlyWord(KEEP_ALIVE, x);
      OnlyWord(UPGRADE, x);
      hide Says, Lower, IsToken;
    }
  }

  /** A word is recognized by its first letter. */
  lemma OnlyWord(word: string, x: string)
    requires word in {CLOSE, KEEP_ALIVE, UPGRADE} && x != ""
    ensures Says(word, x) ==> Lower(x[0]) == word[0] && WordFor(Lower(x[0])) == word && IsToken(word[0])
    ensures Says(word, x) <==> |x| >= |word| && AllFit(word, x)
  {
    assert Says(word, x) ==> Fits(word, x[0], 0);
  }

  lemma ItemEnds(r: Regs)
    requires r.hstate.ConnToken? || r.hstate.ConnectionKeepAlive? || r.hstate.ConnectionClose?
             || r.hstate.ConnectionUpgrade?
    ensures var r' := ValueNext(r, ',');
            r'.hstate.ConnTokenStart? && r'.index == 0 && r'.flags == ConnectionItem(r.flags, r.hstate)
  {
    hide Lower, IsToken;
  }

  /** The first byte of an item that is not the first. */
  lemma ItemStarts(r: Regs, ch: char)
    requires r.hstate.ConnTokenStart? && r.index == 0 && IsHeaderChar(ch)
    ensures var r' := ValueNext(r, ch);
            r'.flags == r.flags && ItemMeans(r'.hstate, r'.index, false, if ch == ' ' then "" else [ch])
  {
    var c := Lower(ch);
    FitsMore(WordFor(c), "", ch);
    assert "" + [ch] == [ch];
    SpaceLowered(ch);
    hide Lower, IsToken, AllFit;
  }

  lemma SpaceLowered(ch: char)
    requires IsHeaderChar(ch)
    ensures (Lower(ch) == ' ' <==> ch == ' ') && Lower(ch) != HTAB && !IsToken(' ') && !IsToken(',')
    ensures IsToken('k') && IsToken('c') && IsToken('u')
  {
  }

  lemma WordGoesOn(r: Regs, c: char, ch: char)
    requires WordFor(c) != "" && r.hstate == Matching(c) && r.index + 1 < |WordFor(c)|
    ensures var r', w := ValueNext(r, ch), WordFor(c);
            && r'.flags == r.flags && r'.index == r.index + 1
            && r'.hstate == if !Fits(w, ch, r.index + 1) then ConnToken
                            else if r.index + 2 == |w| then Matched(c) else Matching(c)
  {
    hide Lower, IsToken;
  }

  lemma WordBehind(r: Regs, c: char, ch: char)
    requires WordFor(c) != "" && r.hstate == Matched(c) && ch != ','
    ensures var r' := ValueNext(r, ch);
            r'.flags == r.flags && r'.index == r.index && r'.hstate == if ch == ' ' then Matched(c) else ConnToken
  {
    hide Lower, IsToken;
  }

  lemma Inert(r: Regs, ch: char)
    requires r.hstate.General? || (r.hstate.ConnToken? && ch != ',')
    ensures ValueNext(r, ch) == r
  {
  }

  /** A further byte of an item, no comma that ends it. */
  lemma ItemGoesOn(r: Regs, first: bool, x: string, ch: char)
    requires ItemMeans(r.hstate, r.index, first, x) && x != "" && (ch == ',' ==> r.hstate.General? || Stub(x))
    ensures var r' := ValueNext(r, ch); r'.flags == r.flags && ItemMeans(r'.hstate, r'.index, first, x + [ch])
  {
    var c := Lower(x[0]);
    var w := WordFor(c);
    assert (x + [ch])[0] == x[0];
    FitsMore(w, x, ch);
    hide ValueNext, AllFit, Lower, IsToken;
    if !first && !IsToken(c) {
      Inert(r, ch);
    } else if w == "" || !AllFit(w, x) {
      Inert(r, ch);
    } else if |x| < |w| {
      WordGoesOn(r, c, ch);
    } else {
      WordBehind(r, c, ch);
    }
  }

  /** The flags that the items set. */
  ghost function WithItems(f: Flags, items: seq<string>): Flags {
    f.(keepAlive := f.keepAlive || AnyIs("keep-alive", items), close := f.close || AnyIs("close", items),
       connUpgrade := f.connUpgrade || AnyIs("upgrade", items))
  }

  /** What the recognizer knows behind the beginning `v` of a value, and what it has done; `before` are the flags before
      the value. */
  ghost predicate Knows(r: Regs, before: Flags, v: string) {
    var items := Items(v);
    && ItemMeans(r.hstate, r.index, |items| == 1, Strip(Last(items)))
    && r.flags == WithItems(before, Front(items))
  }

  lemma NoItems(f: Flags)
    ensures WithItems(f, []) == f
  {
  }

  lemma OneMoreItem(f: Flags, items: seq<string>, item: string)
    ensures WithItems(f, items + [item]) ==
            WithItems(f, items).(keepAlive := WithItems(f, items).keepAlive || IsWord("keep-alive", item),
                                 close := WithItems(f, items).close || IsWord("close", item),
                                 connUpgrade := WithItems(f, items).connUpgrade || IsWord("upgrade", item))
  {
    hide AnyIs, IsWord;
    AnyMore("keep-alive", items, item);
    AnyMore("close", items, item);
    AnyMore("upgrade", items, item);
  }

  lemma ItemsOne(ch: char)
    ensures Items([ch]) == [[ch]]
  {
    var items := Items("");
    assert [ch][..0] == "" && items == [""] && !Complete(Last(items), true);
    assert Last(items) + [ch] == [ch];
    assert items[..0] + [[ch]] == [[ch]];
  }

  lemma KnowsFirst(r: Regs, ch: char)
    requires r.hstate.Connection? && ch != ' '
    ensures ValueFirst(r, ch).Go? && Knows(ValueFirst(r, ch).r, r.flags, [ch])
  {
    ItemsOne(ch);
    FitsMore(WordFor(Lower(ch)), "", ch);
    assert "" + [ch] == [ch] && Strip([ch][..0]) == "" && Strip([ch]) == [ch];
    hide Items, Strip, Lower;
  }

  lemma ItemsMore(v: string, ch: char)
    ensures var items := Items(v);
            Items(v + [ch]) == if ch == ',' && Complete(Last(items), |items| == 1) then items + [""]
                               else Extended(items, [ch])
  {
    hide Complete, Extended;
    assert (v + [ch])[..|v|] == v;
  }

  lemma StripMore(s: string, ch: char)
    ensures Strip(s + [ch]) == if Strip(s) == "" && ch == ' ' then "" else Strip(s) + [ch]
  {
    assert (s + [ch])[..|s|] == s;
  }

  lemma KnowsComma(r: Regs, before: Flags, v: string)
    requires Knows(r, before, v) && Complete(Last(Items(v)), |Items(v)| == 1)
    ensures Knows(ValueNext(r, ','), before, v + [','])
  {
    hide ValueNext, Items, Strip, WithItems, IsWord, Complete;
    var items := Items(v);
    ItemsMore(v, ',');
    AtItemEnd(r.hstate, r.index, |items| == 1, Last(items));
    OneMoreItem(before, Front(items), Last(items));
    assert items == Front(items) + [Last(items)] && Front(items + [""]) == items;
    StripNothing();
    ItemEnds(r);
  }

  lemma KnowsMore(r: Regs, before: Flags, v: string, ch: char)
    requires Knows(r, before, v) && IsHeaderChar(ch)
    requires |Items(v)| == 1 ==> Strip(Last(Items(v))) != ""
    requires ch == ',' ==> !Complete(Last(Items(v)), |Items(v)| == 1)
    ensures Knows(ValueNext(r, ch), before, v + [ch])
  {
    var items := Items(v);
    var n, x := |items| - 1, Strip(Last(items));
    ItemsMore(v, ch);
    StripMore(Last(items), ch);
    assert Front(Extended(items, [ch])) == Front(items);
    if x != "" && !Complete(Last(items), n == 0) {
      CommaWithin(r, n == 0, Last(items));
    }
    hide ValueNext, Items, Strip, WithItems, IsWord, IsHeaderChar, Complete, Stub, Extended;
    if x == "" {
      ItemStarts(r, ch);
      assert "" + [ch] == [ch];
    } else {
      ItemGoesOn(r, n == 0, x, ch);
    }
  }

  lemma CommaWithin(r: Regs, first: bool, item: string)
    requires ItemMeans(r.hstate, r.index, first, Strip(item)) && Strip(item) != "" && !Complete(item, first)
    ensures r.hstate.General? || Stub(Strip(item))
  {
  }

  lemma StripNothing()
    ensures Strip("") == ""
  {
  }

  lemma KnowsNext(r: Regs, before: Flags, v: string, ch: char)
    requires Knows(r, before, v) && IsHeaderChar(ch) && (|Items(v)| == 1 ==> Strip(Last(Items(v))) != "")
    ensures Knows(ValueNext(r, ch), before, v + [ch])
  {
    hide Knows, ValueNext, Items, Strip, Complete, IsHeaderChar;
    if ch == ',' && Complete(Last(Items(v)), |Items(v)| == 1) {
      KnowsComma(r, before, v);
    } else {
      KnowsMore(r, before, v, ch);
    }
  }

  /** At the end of the line: the flags have been set that the value asks for. */
  lemma KnowsEnd(r: Regs, before: Flags, v: string, end: State)
    requires Knows(r, before, v)
    ensures FinishHeader(r.(state := end)) == WithItems(before, Items(v))
  {
    hide Items, Strip, WithItems, IsWord, Complete;
    var items := Items(v);
    AtItemEnd(r.hstate, r.index, |items| == 1, Last(items));
    OneMoreItem(before, Front(items), Last(items));
    assert items == Front(items) + [Last(items)];
  }

  lemma NothingAsked(f: Flags)
    ensures WithItems(f, Items("")) == f
  {
    StripNothing();
    NoItems(f);
    OneMoreItem(f, [], "");
    assert Items("") == [] + [""];
    assert !IsWord("keep-alive", "") && !IsWord("close", "") && !IsWord("upgrade", "");
  }

  lemma {:induction false} NothingToStrip(s: string)
    requires s != "" && s[0] != ' '
    ensures Strip(s) == s
  {
    var n := |s| - 1;
    assert s[..n] + [s[n]] == s;
    if n > 0 {
      NothingToStrip(s[..n]);
    }
  }

  lemma {:induction false} AllOfIt(v: string)
    ensures |Items(v)| == 1 ==> Items(v) == [v]
  {
    if v != "" {
      var n := |v| - 1;
      hide Complete;
      AllOfIt(v[..n]);
      assert v[..n] + [v[n]] == v;
    }
  }

  /** The first item is not empty. */
  lemma OneItem(v: string)
    requires v != "" && v[0] != ' '
    ensures |Items(v)| == 1 ==> Strip(Last(Items(v))) != ""
  {
    AllOfIt(v);
    NothingToStrip(v);
  }

  // ----- the items and the commas -----

  /** The parts of a value between its commas. */
  function Split(v: string): (parts: seq<string>)
    ensures parts != []
  {
    if v == "" then [""]
    else
      var n := |v| - 1;
      var parts := Split(v[..n]);
      if v[n] == ',' then parts + [""] else Extended(parts, [v[n]])
  }

  /** Each part but the last is one that a comma ends. */
  predicate AllComplete(parts: seq<string>) {
    forall k :: 0 <= k < |parts| - 1 ==> Complete(parts[k], k == 0)
  }

  predicate Tidy(v: string) {
    AllComplete(Split(v))
  }

  lemma CompleteMore(parts: seq<string>, part: string)
    requires parts != []
    ensures AllComplete(parts + [part]) <==> AllComplete(parts) && Complete(Last(parts), |parts| == 1)
    ensures AllComplete(Front(parts) + [part]) <==> AllComplete(parts)
  {
    hide Complete;
    var n := |parts| - 1;
    assert forall k :: 0 <= k <= n ==> (parts + [part])[k] == parts[k];
    assert forall k :: 0 <= k < n ==> (Front(parts) + [part])[k] == parts[k];
    if AllComplete(parts + [part]) {
      assert Complete((parts + [part])[n], n == 0);
    }
  }

  /** The items are the parts between the commas exactly if the value is tidy. */
  lemma {:induction false} TidyExactly(v: string)
    ensures Items(v) == Split(v) <==> Tidy(v)
  {
    if v != "" {
      var n := |v| - 1;
      var items, parts := Items(v[..n]), Split(v[..n]);
      hide Complete, AllComplete;
      TidyExactly(v[..n]);
      CompleteMore(parts, "");
      CompleteMore(parts, Last(parts) + [v[n]]);
      if v[n] == ',' {
        assert Front(parts + [""]) == parts && Front(items + [""]) == items;
        assert Last(Extended(items, [v[n]])) != "";
      } else {
        SameFront(items, parts, v[n]);
      }
    }
  }

  lemma SameFront(a: seq<string>, b: seq<string>, ch: char)
    requires a != [] && b != []
    ensures Extended(a, [ch]) == Extended(b, [ch]) <==> a == b
  {
    var a', b' := Extended(a, [ch]), Extended(b, [ch]);
    if a' == b' {
      assert Front(a') == Front(a) && Front(b') == Front(b) && Last(a') == Last(b');
      assert (Last(a) + [ch])[..|Last(a)|] == Last(a) && (Last(b) + [ch])[..|Last(b)|] == Last(b);
      assert a == Front(a) + [Last(a)] && b == Front(b) + [Last(b)];
    }
  }

  /** An item without a comma is one of the parts. */
  lemma {:induction false} ItemsAreParts(v: string)
    ensures forall item :: item in Front(Items(v)) && ',' !in item ==> item in Front(Split(v))
    ensures ',' !in Last(Items(v)) ==> Last(Items(v)) == Last(Split(v))
  {
    if v != "" {
      var n := |v| - 1;
      var items, parts := Items(v[..n]), Split(v[..n]);
      hide Complete;
      ItemsAreParts(v[..n]);
      assert items == Front(items) + [Last(items)] && parts == Front(parts) + [Last(parts)];
      if v[n] == ',' {
        assert Front(parts + [""]) == parts && Front(items + [""]) == items;
        assert ',' in Last(items) + [v[n]];
      }
    }
  }

  lemma {:induction false} NoComma(word: string, item: string)
    requires ',' in item && ',' !in word
    ensures !IsWord(word, item)
  {
    CommaStays(item);
    var x := Strip(item);
    hide Strip;
    var k :| 0 <= k < |x| && x[k] == ',';
    assert !Fits(word, x[k], k);
  }

  lemma {:induction false} CommaStays(s: string)
    requires ',' in s
    ensures ',' in Strip(s)
  {
    var n := |s| - 1;
    if s[n] != ',' {
      assert ',' in s[..n];
      CommaStays(s[..n]);
    }
  }

  /** A Connection value asks for a word only if one of the parts between its commas is that word, and in a tidy value
      also if one is. */
  lemma AsksExactly(word: string, v: string)
    requires word in {"close", "keep-alive", "upgrade"}
    ensures Asks(word, v) ==> AnyIs(word, Split(v))
    ensures Tidy(v) ==> (Asks(word, v) <==> AnyIs(word, Split(v)))
  {
    hide IsWord, Split, Items, Tidy;
    TidyExactly(v);
    if Asks(word, v) {
      var items, parts := Items(v), Split(v);
      var k :| 0 <= k < |items| && IsWord(word, items[k]);
      if ',' in items[k] {
        NoComma(word, items[k]);
      }
      ItemsAreParts(v);
      assert items == Front(items) + [Last(items)] && parts == Front(parts) + [Last(parts)];
      assert items[k] in parts;
    }
  }

  lemma SplitMore(v: string, ch: char)
    ensures Split(v + [ch]) == if ch == ',' then Split(v) + [""] else Extended(Split(v), [ch])
  {
    assert (v + [ch])[..|v|] == v;
  }

  lemma ExtendedTwice(items: seq<string>, a: string, b: string)
    requires items != []
    ensures Extended(Extended(items, a), b) == Extended(items, a + b) && Extended(items, "") == items
  {
    assert Last(items) + a + b == Last(items) + (a + b) && Last(items) + "" == Last(items);
  }

  /** A text without commas behind a value. */
  lemma {:induction false} NoMoreCommas(v: string, t: string)
    requires ',' !in t
    ensures Items(v + t) == Extended(Items(v), t) && Split(v + t) == Extended(Split(v), t)
  {
    hide Items, Split, Extended, Complete;
    if t == "" {
      assert v + t == v;
      ExtendedTwice(Items(v), "", "");
      ExtendedTwice(Split(v), "", "");
    } else {
      var n := |t| - 1;
      var a, ch := t[..n], t[n];
      NoMoreCommas(v, a);
      assert a + [ch] == t && v + a + [ch] == v + t;
      ItemsMore(v + a, ch);
      SplitMore(v + a, ch);
      ExtendedTwice(Items(v), a, [ch]);
      ExtendedTwice(Split(v), a, [ch]);
    }
  }

  lemma CommaBehind(b: string)
    requires Stub(b) && b[0] != ' ' && ',' !in b
    ensures Items(b + ",") == [b + ","] && Split(b + ",") == [b, ""]
  {
    assert Items("") == [""] && Split("") == [""] && "" + b == b;
    NothingToStrip(b);
    assert !Complete(b, true);
    hide Items, Split, Strip, Complete, Stub;
    NoMoreCommas("", b);
    assert Extended([""], b) == [b] && Extended([b], [',']) == [b + ","];
    ItemsMore(b, ',');
    SplitMore(b, ',');
  }

  /** A value that is not tidy can hide the word: behind the mere beginning of a word that counts, the parser takes the
      comma for a letter that does not fit. */
  lemma BeginningHides(word: string, b: string, t: string)
    requires Stub(b) && b[0] != ' ' && ',' !in b && ',' !in t && ',' !in word
    ensures !Asks(word, b + "," + t) && Split(b + "," + t) == [b, t]
  {
    hide Items, Split, IsWord, Stub, Strip, Complete;
    var v := b + ",";
    CommaBehind(b);
    NoMoreCommas(v, t);
    assert Extended([v], t) == [v + t] && Extended([b, ""], t) == [b, "" + t] && "" + t == t;
    assert ',' in v + t;
    NoComma(word, v + t);
  }

  /** The value "c,close" leaves the connection open. */
  lemma HiddenClose()
    ensures !Asks("close", "c,close") && Split("c,close") == ["c", "close"] && IsWord("close", "close")
  {
    var b, t := "c", "close";
    assert Stub(b);
    BeginningHides(t, b, t);
    assert b + "," + t == "c,close";
    NothingToStrip(t);
    assert forall k :: 0 <= k < 5 ==> Fits(CLOSE, t[k], k);
  }
}
