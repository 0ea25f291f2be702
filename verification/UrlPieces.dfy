/** What an accepted URL is made of: the converse of printing. */
module UrlPieces {
  import opened Bytes
  import opened HttpTypes
  import opened HttpAutomaton
  import opened HttpNumbers
  import opened Url
  import opened UrlPrinter

  // ----- the whole URL -----

  /** The text read so far, cut where the automaton cuts it. */
  datatype Pieces = Pieces(scheme: string, slashes: string, server: string, path: string, mark: string, query: string,
                           hashes: string, fragment: string)

  const NO_PIECES: Pieces := Pieces("", "", "", "", "", "", "", "")

  function Joined(p: Pieces): string {
    p.scheme + p.slashes + p.server + p.path + p.mark + p.query + p.hashes + p.fragment
  }

  /** One byte more, on the way to the state `s`. */
  function Extended(p: Pieces, s: State, ch: char): Pieces {
    if s.ReqSchema? then p.(scheme := p.scheme + [ch])
    else if s.ReqSchemaSlash? || s.ReqSchemaSlashSlash? || s.ReqServerStart? then p.(slashes := p.slashes + [ch])
    else if s.ReqServer? || s.ReqServerWithAt? then p.(server := p.server + [ch])
    else if s.ReqPath? then p.(path := p.path + [ch])
    else if s.ReqQueryStringStart? then p.(mark := p.mark + [ch])
    else if s.ReqQueryString? then p.(query := p.query + [ch])
    else if s.ReqFragmentStart? then p.(hashes := p.hashes + [ch])
    else p.(fragment := p.fragment + [ch])
  }

  function PiecesOf(buf: string, connect: bool, k: nat): Pieces
    requires k <= |buf|
  {
    if k == 0 then NO_PIECES
    else Extended(PiecesOf(buf, connect, k - 1), UrlFold(buf, connect, k).s, buf[k - 1])
  }

  predicate IsServerByte(ch: char) { IsServerChar(ch) || ch == '@' }

  predicate IsHash(ch: char) { ch == '#' }

  /** Each piece has the bytes it may have. */
  predicate Legal(p: Pieces) {
    && All(p.scheme, IsAlpha) && All(p.server, IsServerByte) && All(p.path, IsUrlChar) && All(p.query, IsQueryChar)
    && All(p.hashes, IsHash) && All(p.fragment, IsFragmentChar)
    && (p.path != "" ==> p.path[0] == '/' || (p.path[0] == '*' && p.scheme == p.server == ""))
    && (p.fragment != "" ==> p.fragment[0] != '#')
  }

  /** Which pieces there are in which state. */
  predicate UpTo(s: State, connect: bool, p: Pieces) {
    var based := if p.scheme == "" then p.slashes == "" else p.slashes == "://";
    if s.ReqSpacesBeforeUrl? then p == NO_PIECES && !connect
    else if s.ReqSchema? then p == NO_PIECES.(scheme := p.scheme) && p.scheme != "" && !connect
    else if s.ReqSchemaSlash? then p == NO_PIECES.(scheme := p.scheme, slashes := ":") && p.scheme != "" && !connect
    else if s.ReqSchemaSlashSlash? then
      p == NO_PIECES.(scheme := p.scheme, slashes := ":/") && p.scheme != "" && !connect
    else
      && based && (p.scheme != "" ==> !connect) && (p.server != "" ==> p.scheme != "" || connect)
      && (p.scheme != "" || connect || p.path != "")
      && if s.ReqServerStart? then
           p == NO_PIECES.(scheme := p.scheme, slashes := p.slashes) && (p.scheme != "" || connect)
         else if s.ReqServer? || s.ReqServerWithAt? then
           p == NO_PIECES.(scheme := p.scheme, slashes := p.slashes, server := p.server) && p.server != ""
         else if s.ReqPath? then
           p.mark == p.query == p.hashes == p.fragment == "" && p.path != ""
         else if s.ReqQueryStringStart? then
           p.mark == "?" && p.query == p.hashes == p.fragment == ""
         else if s.ReqQueryString? then
           p.mark == "?" && p.query != "" && p.hashes == p.fragment == ""
         else
           && (p.mark == "?" || (p.mark == p.query == "" && p.path != "")) && p.hashes != ""
           && if s.ReqFragmentStart? then p.fragment == "" else s.ReqFragment? && p.fragment != ""
  }

  /** Where the components are. */
  function Places(p: Pieces): Fields {
    var h := |p.scheme| + |p.slashes|;
    var a := h + |p.server|;
    var q := a + |p.path| + |p.mark|;
    var f := q + |p.query| + |p.hashes|;
    Fields(Present(0, p.scheme), Absent, Present(h, p.server), Absent, Present(a, p.path), Present(q, p.query),
           Present(f, p.fragment), 0)
  }

  /** The scan and the pieces belong together. */
  predicate Fitting(x: UrlScan, connect: bool, p: Pieces, k: nat) {
    && UrlShape(x, k) && |Joined(p)| == k
    && Legal(p) && UpTo(x.s, connect, p) && x.u == Places(p) && (x.foundAt <==> '@' in p.server)
  }

  lemma AllMore(s: string, ch: char, p: char -> bool)
    requires All(s, p) && p(ch)
    ensures All(s + [ch], p)
  {
  }

  lemma JoinedMore(p: Pieces, s: State, connect: bool, ch: char)
    requires UpTo(s, connect, Extended(p, s, ch))
    ensures Joined(Extended(p, s, ch)) == Joined(p) + [ch]
  {
  }

  /** What a step keeps besides the shape and the length. */
  predicate Sorted(x: UrlScan, connect: bool, p: Pieces) {
    Legal(p) && UpTo(x.s, connect, p) && x.u == Places(p) && (x.foundAt <==> '@' in p.server)
  }

  lemma SchemeSteps(x: UrlScan, ch: char, connect: bool, p: Pieces, k: nat)
    requires Fitting(x, connect, p, k) && !UrlStep(x, ch, k).s.Dead?
    requires x.s.ReqSpacesBeforeUrl? || x.s.ReqSchema? || x.s.ReqSchemaSlash? || x.s.ReqSchemaSlashSlash?
    ensures var x' := UrlStep(x, ch, k); Sorted(x', connect, Extended(p, x'.s, ch))
  {
    hide IsUserinfoChar, IsUrlChar, IsAlpha, Joined;
    if x.s.ReqSpacesBeforeUrl? || x.s.ReqSchema? {
      SchemeStep(x, ch, connect, p, k);
    }
  }

  lemma SchemeStep(x: UrlScan, ch: char, connect: bool, p: Pieces, k: nat)
    requires Fitting(x, connect, p, k) && !UrlStep(x, ch, k).s.Dead?
    requires x.s.ReqSpacesBeforeUrl? || x.s.ReqSchema?
    ensures var x' := UrlStep(x, ch, k); Sorted(x', connect, Extended(p, x'.s, ch))
  {
    SlashOrStar();
    hide IsUserinfoChar, IsUrlChar, IsAlpha;
  }

  lemma SlashOrStar()
    ensures IsUrlChar('/') && IsUrlChar('*') && !IsAlpha('/') && !IsAlpha('*') && !IsAlpha(':')
  {
  }

  lemma ServerSteps(x: UrlScan, ch: char, connect: bool, p: Pieces, k: nat)
    requires Fitting(x, connect, p, k) && !UrlStep(x, ch, k).s.Dead?
    requires x.s.ReqServerStart? || x.s.ReqServer? || x.s.ReqServerWithAt?
    ensures var x' := UrlStep(x, ch, k); Sorted(x', connect, Extended(p, x'.s, ch))
  {
    hide UrlStep, UrlShape, Legal, UpTo, Places, Joined, Extended;
    ServerMoves(x, ch, k);
    ServerPieces(connect, p, x.s, ch);
    JoinedLength(p);
    if ch == '/' {
      PathBegins(connect, p, x.s);
    } else if ch == '?' {
      QueryBegins(connect, p, x.s);
    } else {
      ServerGoesOn(connect, p, x.s, ch);
    }
  }

  /** What a byte of the authority does to the scan. */
  lemma ServerMoves(x: UrlScan, ch: char, k: nat)
    requires UrlShape(x, k) && (x.s.ReqServerStart? || x.s.ReqServer? || x.s.ReqServerWithAt?)
    requires !UrlStep(x, ch, k).s.Dead?
    ensures var x' := UrlStep(x, ch, k);
            if ch == '/' then
              && x'.s.ReqPath? && x'.u == x.u.(path := Slice(k, 1)) && x'.foundAt == x.foundAt
            else if ch == '?' then x'.s.ReqQueryStringStart? && x'.u == x.u && x'.foundAt == x.foundAt
            else
              && IsServerByte(ch) && x'.s == (if ch == '@' then ReqServerWithAt else ReqServer)
              && x'.u == x.u.(host := if x.s.ReqServerStart? then Slice(k, 1)
                              else Slice(x.u.host.off, x.u.host.len + 1))
              && x'.foundAt == (x.foundAt || ch == '@')
  {
    ServerByteIs(ch);
    hide IsUserinfoChar, IsUrlChar, IsAlpha, IsServerChar, Placed, BaseEnd, HostEnd, PathEnd, QueryEnd;
  }

  lemma ServerPieces(connect: bool, p: Pieces, s: State, ch: char)
    requires UpTo(s, connect, p) && (s.ReqServerStart? || s.ReqServer? || s.ReqServerWithAt?)
    ensures p == NO_PIECES.(scheme := p.scheme, slashes := p.slashes, server := p.server)
    ensures s.ReqServerStart? <==> p.server == ""
  {
  }

  lemma PathBegins(connect: bool, p: Pieces, s: State)
    requires Legal(p) && UpTo(s, connect, p) && (s.ReqServerStart? || s.ReqServer? || s.ReqServerWithAt?)
    ensures var p' := Extended(p, ReqPath, '/');
            && Legal(p') && UpTo(ReqPath, connect, p') && p'.server == p.server
            && Places(p') == Places(p).(path := Slice(|p.scheme| + |p.slashes| + |p.server|, 1))
  {
    SlashOrStar();
    AllMore(p.path, '/', IsUrlChar);
    hide All, IsUrlChar;
  }

  lemma QueryBegins(connect: bool, p: Pieces, s: State)
    requires Legal(p) && UpTo(s, connect, p) && (s.ReqServerStart? || s.ReqServer? || s.ReqServerWithAt?)
    ensures var p' := Extended(p, ReqQueryStringStart, '?');
            && Legal(p') && UpTo(ReqQueryStringStart, connect, p') && p'.server == p.server && Places(p') == Places(p)
  {
    hide All, IsUrlChar;
  }

  lemma ServerGoesOn(connect: bool, p: Pieces, s: State, ch: char)
    requires Legal(p) && UpTo(s, connect, p) && (s.ReqServerStart? || s.ReqServer? || s.ReqServerWithAt?)
    requires IsServerByte(ch)
    ensures var s' := if ch == '@' then ReqServerWithAt else ReqServer;
            var p' := Extended(p, s', ch);
            && Legal(p') && UpTo(s', connect, p') && ('@' in p'.server <==> '@' in p.server || ch == '@')
            && Places(p') == Places(p).(host := Slice(|p.scheme| + |p.slashes|, |p.server| + 1))
            && (p.server != "" ==> Places(p).host == Slice(|p.scheme| + |p.slashes|, |p.server|))
  {
    AllMore(p.server, ch, IsServerByte);
    hide All, IsServerByte;
  }

  lemma ServerByteIs(ch: char)
    ensures IsServerChar(ch) ==> ch != '@' && ch != '/' && ch != '?'
    ensures ParseServerChar(ch).ReqServer? <==> IsServerChar(ch)
  {
  }

  lemma PathSteps(x: UrlScan, ch: char, connect: bool, p: Pieces, k: nat)
    requires Fitting(x, connect, p, k) && !UrlStep(x, ch, k).s.Dead?
    requires x.s.ReqPath? || x.s.ReqQueryStringStart? || x.s.ReqQueryString?
    ensures var x' := UrlStep(x, ch, k); Sorted(x', connect, Extended(p, x'.s, ch))
  {
    hide UrlStep, UrlShape, Legal, UpTo, Places, Joined, Extended;
    if x.s.ReqPath? {
      PathStep(x, ch, connect, p, k);
    } else {
      QueryMoves(x, ch, k);
      JoinedLength(p);
      if ch == '#' {
        HashBegins(connect, p, x.s);
      } else {
        QueryGoesOn(connect, p, x.s, ch);
      }
    }
  }

  /** What a byte of a query does to the scan. */
  lemma QueryMoves(x: UrlScan, ch: char, k: nat)
    requires UrlShape(x, k) && (x.s.ReqQueryStringStart? || x.s.ReqQueryString?) && !UrlStep(x, ch, k).s.Dead?
    ensures var x' := UrlStep(x, ch, k);
            && x'.foundAt == x.foundAt
            && if ch == '#' then x'.s.ReqFragmentStart? && x'.u == x.u
               else && x'.s.ReqQueryString? && IsQueryChar(ch)
                    && x'.u == x.u.(query := if x.s.ReqQueryStringStart? then Slice(k, 1)
                                    else Slice(x.u.query.off, x.u.query.len + 1))
  {
    NoHash();
    hide IsUserinfoChar, IsUrlChar, IsAlpha, Placed, BaseEnd, HostEnd, PathEnd, QueryEnd;
  }

  lemma HashBegins(connect: bool, p: Pieces, s: State)
    requires Legal(p) && UpTo(s, connect, p) && (s.ReqQueryStringStart? || s.ReqQueryString?)
    ensures var p' := Extended(p, ReqFragmentStart, '#');
            Legal(p') && UpTo(ReqFragmentStart, connect, p') && p'.server == p.server && Places(p') == Places(p)
  {
    AllMore(p.hashes, '#', IsHash);
    hide All;
  }

  lemma QueryGoesOn(connect: bool, p: Pieces, s: State, ch: char)
    requires Legal(p) && UpTo(s, connect, p) && (s.ReqQueryStringStart? || s.ReqQueryString?)
    requires IsQueryChar(ch)
    ensures var p' := Extended(p, ReqQueryString, ch);
            var q := |p.scheme| + |p.slashes| + |p.server| + |p.path| + |p.mark|;
            && Legal(p') && UpTo(ReqQueryString, connect, p') && p'.server == p.server
            && Places(p') == Places(p).(query := Slice(q, |p.query| + 1)) && p.hashes == p.fragment == ""
            && (if s.ReqQueryStringStart? then p.query == "" else Places(p).query == Slice(q, |p.query|))
  {
    AllMore(p.query, ch, IsQueryChar);
    hide All;
  }

  lemma PathStep(x: UrlScan, ch: char, connect: bool, p: Pieces, k: nat)
    requires Fitting(x, connect, p, k) && !UrlStep(x, ch, k).s.Dead?
    requires x.s.ReqPath?
    ensures var x' := UrlStep(x, ch, k); Sorted(x', connect, Extended(p, x'.s, ch))
  {
    if ParseUrlChar(ReqPath, ch).ReqPath? {
      AllMore(p.path, ch, IsUrlChar);
    }
    hide IsUserinfoChar, IsUrlChar, IsAlpha, IsServerByte, Joined, All;
  }

  lemma FragmentSteps(x: UrlScan, ch: char, connect: bool, p: Pieces, k: nat)
    requires Fitting(x, connect, p, k) && !UrlStep(x, ch, k).s.Dead?
    requires x.s.ReqFragmentStart? || x.s.ReqFragment?
    ensures var x' := UrlStep(x, ch, k); Sorted(x', connect, Extended(p, x'.s, ch))
  {
    NoHash();
    JoinedLength(p);
    hide IsUserinfoChar, IsUrlChar, IsAlpha, Joined;
    if x.s.ReqFragmentStart? {
      FragmentStartStep(x, ch, connect, p, k);
    }
  }

  lemma FragmentStartStep(x: UrlScan, ch: char, connect: bool, p: Pieces, k: nat)
    requires Fitting(x, connect, p, k) && !UrlStep(x, ch, k).s.Dead?
    requires x.s.ReqFragmentStart?
    ensures var x' := UrlStep(x, ch, k); Sorted(x', connect, Extended(p, x'.s, ch))
  {
    hide Joined, UrlStep, UrlShape, Legal, UpTo, Places;
    FragmentMoves(x, ch, k);
    if ch == '#' {
      OneMoreHash(connect, p);
    } else {
      JoinedLength(p);
      FragmentBegins(connect, p, ch);
    }
  }

  lemma OneMoreHash(connect: bool, p: Pieces)
    requires Legal(p) && UpTo(ReqFragmentStart, connect, p)
    ensures var p' := p.(hashes := p.hashes + ['#']);
            Legal(p') && UpTo(ReqFragmentStart, connect, p') && Places(p') == Places(p)
  {
    AllMore(p.hashes, '#', IsHash);
    hide All;
  }

  lemma FragmentBegins(connect: bool, p: Pieces, ch: char)
    requires Legal(p) && UpTo(ReqFragmentStart, connect, p) && IsQueryChar(ch) && ch != '#'
    ensures var p' := p.(fragment := p.fragment + [ch]);
            && p.fragment == "" && Legal(p') && UpTo(ReqFragment, connect, p')
            && Places(p') == Places(p).(fragment := Slice(|p.scheme| + |p.slashes| + |p.server| + |p.path| + |p.mark|
                                                          + |p.query| + |p.hashes|, 1))
  {
    AllMore(p.fragment, ch, IsFragmentChar);
    hide All;
  }

  lemma FragmentMoves(x: UrlScan, ch: char, k: nat)
    requires UrlShape(x, k) && x.s.ReqFragmentStart? && !UrlStep(x, ch, k).s.Dead?
    ensures var x' := UrlStep(x, ch, k);
            if ch == '#' then x' == x
            else && x'.s.ReqFragment? && IsQueryChar(ch)
                 && x' == x.(s := x'.s, last := x'.last, u := x.u.(fragment := Slice(k, 1)))
  {
    NoHash();
    hide IsUserinfoChar, IsUrlChar, IsAlpha, Placed;
  }

  lemma JoinedLength(p: Pieces)
    ensures |Joined(p)| == |p.scheme| + |p.slashes| + |p.server| + |p.path| + |p.mark| + |p.query| + |p.hashes|
                           + |p.fragment|
  {
  }

  lemma NoHash()
    ensures !IsUrlChar('#') && !IsUrlChar('?')
  {
  }

  lemma PieceStep(x: UrlScan, ch: char, connect: bool, p: Pieces, k: nat)
    requires Fitting(x, connect, p, k) && !UrlStep(x, ch, k).s.Dead?
    ensures var x' := UrlStep(x, ch, k);
            var p' := Extended(p, x'.s, ch);
            Fitting(x', connect, p', k + 1) && Joined(p') == Joined(p) + [ch]
  {
    hide UrlStep, UrlShape, Legal, Extended, Places, Joined;
    ShapeKept(x, ch, k);
    if x.s.ReqSpacesBeforeUrl? || x.s.ReqSchema? || x.s.ReqSchemaSlash? || x.s.ReqSchemaSlashSlash? {
      SchemeSteps(x, ch, connect, p, k);
    } else if x.s.ReqServerStart? || x.s.ReqServer? || x.s.ReqServerWithAt? {
      ServerSteps(x, ch, connect, p, k);
    } else if x.s.ReqPath? || x.s.ReqQueryStringStart? || x.s.ReqQueryString? {
      PathSteps(x, ch, connect, p, k);
    } else {
      FragmentSteps(x, ch, connect, p, k);
    }
    JoinedMore(p, UrlStep(x, ch, k).s, connect, ch);
  }

  /** The pieces of a live scan. */
  lemma {:induction false} PiecesAt(buf: string, connect: bool, k: nat)
    requires k <= |buf| && !UrlFold(buf, connect, k).s.Dead?
    ensures var p := PiecesOf(buf, connect, k);
            Fitting(UrlFold(buf, connect, k), connect, p, k) && Joined(p) == buf[..k]
  {
    hide UrlStep, Fitting, Joined, Extended;
    if k == 0 {
      NoPiecesYet(connect);
    } else {
      var x, p := UrlFold(buf, connect, k - 1), PiecesOf(buf, connect, k - 1);
      if x.s.Dead? {
        DeadUrl(buf, connect, k - 1, k);
      }
      PiecesAt(buf, connect, k - 1);
      PieceStep(x, buf[k - 1], connect, p, k - 1);
      assert buf[..k] == buf[..k - 1] + [buf[k - 1]];
    }
  }

  lemma NoPiecesYet(connect: bool)
    ensures Fitting(UrlBegin(connect), connect, NO_PIECES, 0) && Joined(NO_PIECES) == ""
  {
  }

  // ----- the authority -----

  /** The text of an authority, cut where its automaton cuts it. */
  datatype HostPieces = HostPieces(userinfo: string, at: string, open: string, name: string, percent: string,
                                   zone: string, close: string, colon: string, port: string)

  const NO_HOST: HostPieces := HostPieces("", "", "", "", "", "", "", "", "")

  function HostFront(p: HostPieces): string {
    p.userinfo + p.at + p.open
  }

  function HostMiddle(p: HostPieces): string {
    p.name + p.percent + p.zone + p.close
  }

  function HostTail(p: HostPieces): string {
    p.colon + p.port
  }

  function HostJoined(p: HostPieces): string {
    HostFront(p) + HostMiddle(p) + HostTail(p)
  }

  /** One byte more, on the way to the state `s`. */
  function HostExtended(p: HostPieces, s: HostState, ch: char): HostPieces {
    if s.Userinfo? then p.(userinfo := p.userinfo + [ch])
    else if s.HostStart? then p.(at := p.at + [ch])
    else if s.V6Start? then p.(open := p.open + [ch])
    else if s.HostName? || s.V6? then p.(name := p.name + [ch])
    else if s.V6ZoneStart? then p.(percent := p.percent + [ch])
    else if s.V6Zone? then p.(zone := p.zone + [ch])
    else if s.V6End? then p.(close := p.close + [ch])
    else if s.PortStart? then p.(colon := p.colon + [ch])
    else p.(port := p.port + [ch])
  }

  predicate HostLegal(p: HostPieces) {
    && All(p.userinfo, IsUserinfoChar) && All(p.zone, IsZoneChar) && All(p.port, IsNum)
    && (p.open == "" ==> All(p.name, IsHostChar)) && (p.open != "" ==> All(p.name, IsV6Char))
  }

  /** A zone comes with its percent sign, and is not empty. */
  predicate ZoneWhole(p: HostPieces) {
    if p.percent == "" then p.zone == "" else p.percent == "%" && p.zone != ""
  }

  /** A whole host: a name, or an address in brackets, perhaps with a zone. */
  predicate HostWhole(p: HostPieces) {
    && p.name != ""
    && if p.open == "" then p.percent == p.zone == p.close == ""
       else p.open == "[" && p.close == "]" && ZoneWhole(p)
  }

  /** Which pieces there are in which state. */
  predicate HostUpTo(s: HostState, foundAt: bool, p: HostPieces) {
    if s.UserinfoStart? then foundAt && p == NO_HOST
    else if s.Userinfo? then foundAt && p == NO_HOST.(userinfo := p.userinfo) && p.userinfo != ""
    else
      && p.at == (if foundAt then "@" else "") && (!foundAt ==> p.userinfo == "")
      && if s.PortStart? then HostWhole(p) && p.colon == ":" && p.port == ""
         else if s.PortDigits? then HostWhole(p) && p.colon == ":" && p.port != ""
         else
           && p.colon == p.port == ""
           && if s.HostStart? then p.open == p.name == p.percent == p.zone == p.close == ""
              else if s.HostName? then HostWhole(p) && p.open == ""
              else if s.V6End? then HostWhole(p) && p.open == "["
              else
                && p.open == "[" && p.close == ""
                && if s.V6Start? then p.name == p.percent == p.zone == ""
                   else
                     && p.name != ""
                     && if s.V6? then p.percent == p.zone == ""
                        else p.percent == "%" && if s.V6ZoneStart? then p.zone == "" else s.V6Zone? && p.zone != ""
  }

  /** Where the components are, if the authority begins at `a`. */
  function HostPlaces(u0: Fields, a: nat, p: HostPieces): Fields {
    var h := a + |p.userinfo| + |p.at| + |p.open|;
    var n := |p.name| + |p.percent| + |p.zone|;
    u0.(userinfo := Present(a, p.userinfo), host := if p.name == "" then Slice(a, 0) else Slice(h, n),
        port := Present(h + n + |p.close| + |p.colon|, p.port))
  }

  predicate HostFitting(x: HostScan, u0: Fields, a: nat, foundAt: bool, p: HostPieces, k: nat) {
    && a + |HostJoined(p)| == k && HostLegal(p) && HostUpTo(x.s, foundAt, p) && x.u == HostPlaces(u0, a, p)
  }

  lemma HostJoinedLength(p: HostPieces)
    ensures |HostJoined(p)| == |p.userinfo| + |p.at| + |p.open| + |p.name| + |p.percent| + |p.zone| + |p.close|
                               + |p.colon| + |p.port|
  {
  }

  lemma HostJoinedMore(p: HostPieces, s: HostState, foundAt: bool, ch: char)
    requires HostUpTo(s, foundAt, HostExtended(p, s, ch)) && !s.UserinfoStart? && !s.HostDead?
    ensures HostJoined(HostExtended(p, s, ch)) == HostJoined(p) + [ch]
  {
    hide HostFront, HostMiddle, HostTail, HostUpTo, HostExtended;
    var p' := HostExtended(p, s, ch);
    if s.Userinfo? || s.HostStart? || s.V6Start? {
      FrontMore(p, s, foundAt, ch);
    } else if s.HostName? || s.V6? || s.V6ZoneStart? || s.V6Zone? || s.V6End? {
      MiddleMore(p, s, foundAt, ch);
      assert HostFront(p) + (HostMiddle(p) + [ch]) + "" == HostFront(p) + HostMiddle(p) + "" + [ch];
    } else {
      TailMore(p, s, foundAt, ch);
      assert HostFront(p) + HostMiddle(p) + (HostTail(p) + [ch]) == HostFront(p) + HostMiddle(p) + HostTail(p) + [ch];
    }
  }

  lemma FrontMore(p: HostPieces, s: HostState, foundAt: bool, ch: char)
    requires HostUpTo(s, foundAt, HostExtended(p, s, ch)) && (s.Userinfo? || s.HostStart? || s.V6Start?)
    ensures var p' := HostExtended(p, s, ch);
            && HostFront(p') == HostFront(p) + [ch] && HostMiddle(p') == HostMiddle(p) == ""
            && HostTail(p') == HostTail(p) == ""
  {
  }

  lemma MiddleMore(p: HostPieces, s: HostState, foundAt: bool, ch: char)
    requires HostUpTo(s, foundAt, HostExtended(p, s, ch))
    requires s.HostName? || s.V6? || s.V6ZoneStart? || s.V6Zone? || s.V6End?
    ensures var p' := HostExtended(p, s, ch);
            && HostFront(p') == HostFront(p) && HostMiddle(p') == HostMiddle(p) + [ch]
            && HostTail(p') == HostTail(p) == ""
  {
  }

  lemma TailMore(p: HostPieces, s: HostState, foundAt: bool, ch: char)
    requires HostUpTo(s, foundAt, HostExtended(p, s, ch)) && (s.PortStart? || s.PortDigits?)
    ensures var p' := HostExtended(p, s, ch);
            && HostFront(p') == HostFront(p) && HostMiddle(p') == HostMiddle(p) && HostTail(p') == HostTail(p) + [ch]
  {
  }

  lemma DelimitersAreNone()
    ensures !IsHostChar('[') && !IsV6Char('%') && !IsV6Char(']') && !IsHostChar(':') && !IsZoneChar(']')
    ensures !IsUserinfoChar('@')
  {
  }

  lemma UserinfoSteps(x: HostScan, ch: char, u0: Fields, a: nat, foundAt: bool, p: HostPieces, k: nat)
    requires HostFitting(x, u0, a, foundAt, p, k) && !HostStep(x, ch, k).s.HostDead?
    requires x.s.UserinfoStart? || x.s.Userinfo? || x.s.HostStart? || x.s.HostName?
    ensures var x' := HostStep(x, ch, k);
            var p' := HostExtended(p, x'.s, ch);
            HostLegal(p') && HostUpTo(x'.s, foundAt, p') && x'.u == HostPlaces(u0, a, p')
  {
    DelimitersAreNone();
    HostJoinedLength(p);
    hide IsUserinfoChar, IsHostChar, IsV6Char, IsZoneChar, HostJoined;
  }

  lemma AddressSteps(x: HostScan, ch: char, u0: Fields, a: nat, foundAt: bool, p: HostPieces, k: nat)
    requires HostFitting(x, u0, a, foundAt, p, k) && !HostStep(x, ch, k).s.HostDead?
    requires x.s.V6Start? || x.s.V6? || x.s.V6ZoneStart? || x.s.V6Zone?
    ensures var x' := HostStep(x, ch, k);
            var p' := HostExtended(p, x'.s, ch);
            HostLegal(p') && HostUpTo(x'.s, foundAt, p') && x'.u == HostPlaces(u0, a, p')
  {
    DelimitersAreNone();
    HostJoinedLength(p);
    hide IsUserinfoChar, IsHostChar, IsV6Char, IsZoneChar, HostJoined;
  }

  lemma PortSteps(x: HostScan, ch: char, u0: Fields, a: nat, foundAt: bool, p: HostPieces, k: nat)
    requires HostFitting(x, u0, a, foundAt, p, k) && !HostStep(x, ch, k).s.HostDead?
    requires x.s.V6End? || x.s.PortStart? || x.s.PortDigits?
    ensures var x' := HostStep(x, ch, k);
            var p' := HostExtended(p, x'.s, ch);
            HostLegal(p') && HostUpTo(x'.s, foundAt, p') && x'.u == HostPlaces(u0, a, p')
  {
    DelimitersAreNone();
    HostJoinedLength(p);
    hide IsUserinfoChar, IsHostChar, IsV6Char, IsZoneChar, HostJoined;
  }

  lemma HostPieceStep(x: HostScan, ch: char, u0: Fields, a: nat, foundAt: bool, p: HostPieces, k: nat)
    requires HostFitting(x, u0, a, foundAt, p, k) && !x.s.HostDead? && !HostStep(x, ch, k).s.HostDead?
    ensures var x' := HostStep(x, ch, k);
            var p' := HostExtended(p, x'.s, ch);
            HostFitting(x', u0, a, foundAt, p', k + 1) && HostJoined(p') == HostJoined(p) + [ch]
  {
    if x.s.UserinfoStart? || x.s.Userinfo? || x.s.HostStart? || x.s.HostName? {
      UserinfoSteps(x, ch, u0, a, foundAt, p, k);
    } else if x.s.V6Start? || x.s.V6? || x.s.V6ZoneStart? || x.s.V6Zone? {
      AddressSteps(x, ch, u0, a, foundAt, p, k);
    } else {
      PortSteps(x, ch, u0, a, foundAt, p, k);
    }
    NotAgain(x, ch, k);
    hide HostStep, HostLegal, HostExtended, HostPlaces, HostJoined;
    HostJoinedMore(p, HostStep(x, ch, k).s, foundAt, ch);
  }

  lemma NotAgain(x: HostScan, ch: char, k: nat)
    ensures !HostStep(x, ch, k).s.UserinfoStart?
  {
  }

  function HostPiecesOf(buf: string, x: HostScan, a: nat, k: nat): HostPieces
    requires a <= k <= |buf|
    decreases k - a
  {
    if k == a then NO_HOST
    else HostExtended(HostPiecesOf(buf, x, a, k - 1), HostFold(buf, x, a, k).s, buf[k - 1])
  }

  /** The pieces of an authority that has been read without failing. */
  lemma {:induction false} HostPiecesAt(buf: string, u0: Fields, foundAt: bool, k: nat)
    requires u0.host.Slice? && u0.host.off <= k <= |buf| && u0.port.Absent? && u0.userinfo.Absent?
    requires !HostFold(buf, HostBegin(u0, foundAt), u0.host.off, k).s.HostDead?
    ensures var a, x0 := u0.host.off, HostBegin(u0, foundAt);
            var p := HostPiecesOf(buf, x0, a, k);
            HostFitting(HostFold(buf, x0, a, k), u0, a, foundAt, p, k) && HostJoined(p) == buf[a..k]
    decreases k
  {
    hide HostStep, HostFitting, HostJoined, HostExtended;
    var a, x0 := u0.host.off, HostBegin(u0, foundAt);
    if k == a {
      NoHostYet(u0, foundAt);
    } else {
      var x, p := HostFold(buf, x0, a, k - 1), HostPiecesOf(buf, x0, a, k - 1);
      if x.s.HostDead? {
        DeadStaysDead(buf, x0, a, k - 1, k);
      }
      HostPiecesAt(buf, u0, foundAt, k - 1);
      HostPieceStep(x, buf[k - 1], u0, a, foundAt, p, k - 1);
      assert buf[a..k] == buf[a..k - 1] + [buf[k - 1]];
    }
  }

  lemma NoHostYet(u0: Fields, foundAt: bool)
    requires u0.host.Slice? && u0.port.Absent? && u0.userinfo.Absent?
    ensures HostFitting(HostBegin(u0, foundAt), u0, u0.host.off, foundAt, NO_HOST, u0.host.off)
    ensures HostJoined(NO_HOST) == ""
  {
  }

  // ----- an accepted URL is spelled -----

  /** The marks with which components are written; a component that is empty may have its mark all the same, and a
      fragment may have several. */
  datatype Marks = Marks(at: string, question: string, hashes: string)

  function SpelledAuthority(a: Authority, at: string): string {
    a.userinfo + at + PrintHost(a.host) + Behind(':', a.port)
  }

  function SpelledTail(t: Tail, m: Marks): string {
    t.path + m.question + t.query + m.hashes + t.fragment
  }

  /** A URL as it may be written. */
  function Spelled(t: Target, m: Marks): string {
    match t
    case Absolute(scheme, authority, tail) => scheme + "://" + SpelledAuthority(authority, m.at) + SpelledTail(tail, m)
    case Origin(tail) => SpelledTail(tail, m)
    case ForConnect(authority) => SpelledAuthority(authority, m.at) + SpelledTail(NO_TAIL, m)
  }

  const NO_TAIL: Tail := Tail("", "", "")

  predicate GoodTailMarks(t: Tail, m: Marks) {
    && (m.question == "?" || (m.question == "" && t.query == ""))
    && All(m.hashes, IsHash) && (m.hashes == "" ==> t.fragment == "")
    && (m.hashes != "" ==> t.path != "" || m.question != "")
  }

  /** The marks that a URL needs are there, and no others than these. */
  predicate GoodMarks(t: Target, m: Marks) {
    && (m.at == "@" || (m.at == "" && (!t.Origin? ==> t.authority.userinfo == "")))
    && (t.Origin? ==> m.at == "")
    && GoodTailMarks(if t.ForConnect? then NO_TAIL else t.tail, m)
  }

  function HostOf(p: HostPieces): Host {
    if p.open == "" then Name(p.name) else Address(p.name, p.zone)
  }

  /** The target that the pieces stand for. */
  function TargetOf(connect: bool, p: Pieces, h: HostPieces): Target {
    var a := Authority(h.userinfo, HostOf(h), h.port);
    var t := Tail(p.path, p.query, p.fragment);
    if connect then ForConnect(a) else if p.scheme != "" then Absolute(p.scheme, a, t) else Origin(t)
  }

  /** The host pieces of a complete authority. */
  predicate Finished(foundAt: bool, h: HostPieces) {
    && HostLegal(h) && HostWhole(h) && h.at == (if foundAt then "@" else "") && (!foundAt ==> h.userinfo == "")
    && if h.colon == "" then h.port == "" else h.colon == ":" && h.port != ""
  }

  lemma HostSpelled(h: HostPieces, foundAt: bool)
    requires Finished(foundAt, h)
    ensures HostJoined(h) == SpelledAuthority(Authority(h.userinfo, HostOf(h), h.port), h.at) && GoodHost(HostOf(h))
  {
    MiddleIsHost(h);
    FrontAndTail(h);
    hide HostMiddle, HostTail, PrintHost, Behind, HostLegal;
    HostGlued(h.userinfo + h.at, h.open, HostMiddle(h), HostTail(h));
  }

  lemma MiddleIsHost(h: HostPieces)
    requires HostLegal(h) && HostWhole(h)
    ensures PrintHost(HostOf(h)) == h.open + HostMiddle(h) && GoodHost(HostOf(h))
  {
    if h.open == "" {
      assert HostMiddle(h) == h.name;
    } else {
      assert HostMiddle(h) == HostText(HostOf(h)) + "]";
    }
  }

  lemma FrontAndTail(h: HostPieces)
    requires if h.colon == "" then h.port == "" else h.colon == ":" && h.port != ""
    ensures HostTail(h) == Behind(':', h.port)
  {
  }

  lemma HostGlued(a: string, b: string, c: string, d: string)
    ensures a + b + c + d == a + (b + c) + d
  {
  }

  /** The pieces of a URL that is accepted. */
  predicate Acceptable(connect: bool, p: Pieces) {
    && Legal(p) && (if p.scheme == "" then p.slashes == "" else p.slashes == "://" && !connect && p.server != "")
    && (p.server != "" ==> p.scheme != "" || connect)
    && (if connect then p.server != "" && p.path == p.query == p.fragment == ""
        else p.scheme != "" || p.path != "")
    && (p.mark == "?" || (p.mark == p.query == "")) && (p.hashes == "" ==> p.fragment == "")
    && (p.hashes != "" ==> p.path != "" || p.mark != "")
  }

  lemma PiecesSpelled(connect: bool, p: Pieces, foundAt: bool, h: HostPieces)
    requires Acceptable(connect, p)
    requires if p.server == "" then h == NO_HOST else Finished(foundAt, h) && HostJoined(h) == p.server
    ensures var t, m := TargetOf(connect, p, h), Marks(h.at, p.mark, p.hashes);
            Joined(p) == Spelled(t, m) && GoodMarks(t, m)
  {
    hide All, IsServerByte, HostJoined, SpelledAuthority, PrintHost, HostLegal, HostWhole;
    if p.server != "" {
      HostSpelled(h, foundAt);
    }
    var t, m := TargetOf(connect, p, h), Marks(h.at, p.mark, p.hashes);
    var tail := Tail(p.path, p.query, p.fragment);
    TailGlued(p.scheme + p.slashes + p.server, p.path, p.mark, p.query, p.hashes, p.fragment);
    assert Joined(p) == p.scheme + p.slashes + p.server + SpelledTail(tail, m);
    if t.Origin? {
      assert p.scheme + p.slashes + p.server == "";
    } else if t.ForConnect? {
      assert tail == NO_TAIL && p.scheme + p.slashes + p.server == p.server;
    }
  }

  lemma TailGlued(a: string, b: string, c: string, d: string, e: string, f: string)
    ensures a + b + c + d + e + f == a + (b + c + d + e + f)
  {
  }

  // ----- where the components of a spelled URL are -----

  function AuthorityPlaces(u: Fields, off: nat, a: Authority, at: string): Fields {
    var h := off + |a.userinfo| + |at|;
    u.(userinfo := Present(off, a.userinfo),
       host := Slice(if a.host.Name? then h else h + 1, |HostText(a.host)|),
       port := Present(h + |PrintHost(a.host)| + 1, a.port),
       portValue := if AreDigits(a.port) then Decimal(a.port) else 0)
  }

  function TailPlaces(u: Fields, off: nat, t: Tail, m: Marks): Fields {
    var q := off + |t.path| + |m.question|;
    u.(path := Present(off, t.path), query := Present(q, t.query),
       fragment := Present(q + |t.query| + |m.hashes|, t.fragment))
  }

  function SpelledPlaces(t: Target, m: Marks): Fields {
    match t
    case Absolute(scheme, authority, tail) =>
      TailPlaces(AuthorityPlaces(NO_FIELDS.(schema := Slice(0, |scheme|)), |scheme| + 3, authority, m.at),
                 |scheme| + 3 + |SpelledAuthority(authority, m.at)|, tail, m)
    case Origin(tail) => TailPlaces(NO_FIELDS, 0, tail, m)
    case ForConnect(authority) => AuthorityPlaces(NO_FIELDS, 0, authority, m.at)
  }

  /** The places that the two automata have found. */
  lemma PlacesAgree(connect: bool, p: Pieces, foundAt: bool, h: HostPieces)
    requires Acceptable(connect, p)
    requires if p.server == "" then h == NO_HOST else Finished(foundAt, h) && HostJoined(h) == p.server
    ensures var t, m := TargetOf(connect, p, h), Marks(h.at, p.mark, p.hashes);
            var u := if p.server == "" then Places(p) else HostPlaces(Places(p), |p.scheme| + |p.slashes|, h);
            SpelledPlaces(t, m) == u.(portValue := if AreDigits(h.port) then Decimal(h.port) else 0)
  {
    hide Legal, Finished, AreDigits, Decimal, HostJoined, SpelledAuthority, HostOf, PrintHost, HostText;
    if p.server != "" {
      HostSpelled(h, foundAt);
      HostPlacesAgree(Places(p), |p.scheme| + |p.slashes|, foundAt, h);
    } else {
      NoPortAtAll();
    }
  }

  lemma NoPortAtAll()
    ensures AreDigits("") && Decimal("") == 0
  {
  }

  /** The same for an authority that begins at `a`. */
  lemma HostPlacesAgree(u: Fields, a: nat, foundAt: bool, h: HostPieces)
    requires Finished(foundAt, h)
    ensures AuthorityPlaces(u, a, Authority(h.userinfo, HostOf(h), h.port), h.at)
            == HostPlaces(u, a, h).(portValue := if AreDigits(h.port) then Decimal(h.port) else 0)
  {
    HostLengths(h);
    hide HostLegal, AreDigits, Decimal;
  }

  lemma HostLengths(h: HostPieces)
    requires HostWhole(h)
    ensures |HostText(HostOf(h))| == |h.name| + |h.percent| + |h.zone|
    ensures |PrintHost(HostOf(h))| == |h.open| + |h.name| + |h.percent| + |h.zone| + |h.close|
  {
  }

  /** What `UpTo` leaves when the URL is accepted. */
  lemma AcceptedPieces(buf: string, connect: bool)
    requires Parse(buf, connect).Accepted? && buf != ""
    ensures var x := UrlFold(buf, connect, |buf|);
            var p := PiecesOf(buf, connect, |buf|);
            && !x.s.Dead? && Fitting(x, connect, p, |buf|) && Joined(p) == buf && Acceptable(connect, p)
            && (p.server == "" <==> x.u.host.Absent?)
  {
    hide UrlStep, HostStep, HostShape, UrlShape, Joined, Checked, HostComplete, HostScanOf;
    var x := UrlFold(buf, connect, |buf|);
    PiecesAt(buf, connect, |buf|);
    assert buf[..|buf|] == buf;
    var p := PiecesOf(buf, connect, |buf|);
    NothingJoined();
    if connect {
      ConnectFields(buf);
    }
    HostAndSchema(buf, connect);
  }

  lemma NothingJoined()
    ensures Joined(NO_PIECES) == ""
  {
  }

  lemma HostAndSchema(buf: string, connect: bool)
    requires Parse(buf, connect).Accepted?
    ensures var x := UrlFold(buf, connect, |buf|); !x.s.Dead? && (x.u.schema.Slice? ==> x.u.host.Slice?)
  {
    hide UrlStep, HostStep, HostShape, UrlShape, Checked, HostComplete, HostScanOf;
  }

  /** A CONNECT target is an authority, perhaps with marks behind it. */
  lemma ConnectFields(buf: string)
    requires Parse(buf, true).Accepted?
    ensures var u := UrlFold(buf, true, |buf|).u;
            u.host.Slice? && u.path.Absent? && u.query.Absent? && u.fragment.Absent?
  {
    hide UrlStep, HostStep, UrlShape, HostComplete, HostScanOf;
    var x := UrlFold(buf, true, |buf|);
    if x.u.host.Slice? {
      AuthorityShape(buf, true);
    }
  }

  lemma ServerIsThere(p: Pieces)
    ensures var a := |p.scheme| + |p.slashes|;
            a + |p.server| <= |Joined(p)| && Joined(p)[a..a + |p.server|] == p.server
  {
    var front, rest := p.scheme + p.slashes, p.path + p.mark + p.query + p.hashes + p.fragment;
    TailGlued(front + p.server, p.path, p.mark, p.query, p.hashes, p.fragment);
    assert Joined(p) == front + p.server + rest;
  }

  lemma PortIsThere(h: HostPieces)
    ensures |h.port| <= |HostJoined(h)| && HostJoined(h)[|HostJoined(h)| - |h.port|..] == h.port
  {
  }

  /** The host pieces of an accepted authority. */
  lemma AcceptedHost(buf: string, connect: bool) returns (h: HostPieces)
    requires Parse(buf, connect).Accepted? && UrlFold(buf, connect, |buf|).u.host.Slice?
    ensures var x := UrlFold(buf, connect, |buf|);
            var p := PiecesOf(buf, connect, |buf|);
            && Finished(x.foundAt, h) && HostJoined(h) == p.server && x.u == Places(p)
            && AreDigits(h.port) && Decimal(h.port) <= MAX_PORT && (connect ==> h.userinfo == "" && h.port != "")
            && Parse(buf, connect).u
               == HostPlaces(Places(p), |p.scheme| + |p.slashes|, h).(portValue := Decimal(h.port))
  {
    hide UrlStep, HostStep, HostShape, UrlShape, Joined, HostJoined, HostPiecesOf, PiecesOf, Legal, UpTo;
    var x, p := UrlFold(buf, connect, |buf|), PiecesOf(buf, connect, |buf|);
    NotEmpty(buf, connect);
    AcceptedPieces(buf, connect);
    AuthorityShape(buf, connect);
    ServerIsThere(p);
    var a, b := x.u.host.off, x.u.host.End();
    h := HostPiecesOf(buf, HostBegin(x.u, x.foundAt), a, b);
    HostPiecesAt(buf, x.u, x.foundAt, b);
    PortIsThere(h);
    HostIsFinished(HostScanOf(buf, x), x.u, a, x.foundAt, h, b);
    PortChecked(buf, connect, x, HostScanOf(buf, x), h);
  }

  lemma NotEmpty(buf: string, connect: bool)
    requires UrlFold(buf, connect, |buf|).u.host.Slice?
    ensures buf != ""
  {
  }

  lemma HostIsFinished(x: HostScan, u0: Fields, a: nat, foundAt: bool, h: HostPieces, k: nat)
    requires HostFitting(x, u0, a, foundAt, h, k) && HostComplete(x.s)
    ensures Finished(foundAt, h) && AreDigits(h.port) && (h.port == "" ==> Decimal(h.port) == 0)
  {
    hide HostJoined;
  }

  /** The checks behind the loops, by the pieces of the authority. */
  lemma PortChecked(buf: string, connect: bool, x: UrlScan, y: HostScan, h: HostPieces)
    requires x == UrlFold(buf, connect, |buf|) && !x.s.Dead? && x.u.host.Slice? && x.u.host.End() <= |buf|
    requires y == HostScanOf(buf, x) && HostComplete(y.s) && Parse(buf, connect).Accepted?
    requires y.u == HostPlaces(x.u, x.u.host.off, h) && AreDigits(h.port)
             && HostJoined(h) == buf[x.u.host.off..x.u.host.End()]
    requires HostShape(buf, x.u, x.u.host.off, x.foundAt, y, x.u.host.End()) && x.u.portValue == 0
    requires h.port == "" ==> Decimal(h.port) == 0
    ensures Decimal(h.port) <= MAX_PORT && (connect ==> h.userinfo == "" && h.port != "")
    ensures Parse(buf, connect).u == y.u.(portValue := Decimal(h.port))
  {
    hide UrlStep, HostStep, HostShape, UrlShape, HostFold, UrlFold;
    PortIsDigits(buf, x.u, x.u.host.off, x.foundAt, y, x.u.host.End());
    HostJoinedLength(h);
    PortIsThere(h);
    hide HostJoined;
    if h.port != "" {
      assert y.u.port.Text(buf) == h.port;
    }
  }

  /** The target is a good one. */
  lemma TargetIsGood(connect: bool, p: Pieces, foundAt: bool, h: HostPieces)
    requires Acceptable(connect, p)
    requires if p.server == "" then h == NO_HOST
             else && Finished(foundAt, h) && AreDigits(h.port) && Decimal(h.port) <= MAX_PORT
                  && (connect ==> h.userinfo == "" && h.port != "")
    ensures var t := TargetOf(connect, p, h); GoodParts(t) && !Unconnectable(t)
  {
    hide Joined, IsUserinfoChar, IsUrlChar, IsHostChar, IsV6Char, IsZoneChar, Decimal;
    if p.server != "" {
      HostIsGood(h, foundAt);
    }
  }

  lemma HostIsGood(h: HostPieces, foundAt: bool)
    requires Finished(foundAt, h)
    ensures GoodHost(HostOf(h))
  {
  }

  /** Every URL that is accepted is spelled: it is a target of legal components with the marks between them, and the
      components are found where they are. */
  lemma AcceptedIsSpelled(buf: string, connect: bool) returns (t: Target, m: Marks)
    requires Parse(buf, connect).Accepted? && buf != ""
    ensures GoodParts(t) && !Unconnectable(t) && (t.ForConnect? <==> connect) && GoodMarks(t, m)
    ensures buf == Spelled(t, m) && Parse(buf, connect).u == SpelledPlaces(t, m)
  {
    hide UrlStep, HostStep, HostShape, UrlShape, Joined, HostJoined, PiecesOf, UrlFold, Acceptable, Finished, Spelled,
      SpelledPlaces, GoodMarks, GoodParts, HostPlaces, AreDigits, Decimal;
    var x, p := UrlFold(buf, connect, |buf|), PiecesOf(buf, connect, |buf|);
    AcceptedPieces(buf, connect);
    var h := NO_HOST;
    if x.u.host.Slice? {
      h := AcceptedHost(buf, connect);
    } else {
      NoAuthority(buf, connect);
    }
    t, m := TargetOf(connect, p, h), Marks(h.at, p.mark, p.hashes);
    PiecesSpelled(connect, p, x.foundAt, h);
    PlacesAgree(connect, p, x.foundAt, h);
    TargetIsGood(connect, p, x.foundAt, h);
    WhichTarget(connect, p, h);
  }

  lemma WhichTarget(connect: bool, p: Pieces, h: HostPieces)
    ensures TargetOf(connect, p, h).ForConnect? <==> connect
  {
  }

  lemma NoAuthority(buf: string, connect: bool)
    requires Parse(buf, connect).Accepted? && buf != "" && UrlFold(buf, connect, |buf|).u.host.Absent?
    ensures var p := PiecesOf(buf, connect, |buf|);
            p.server == "" && Parse(buf, connect).u == Places(p) && AreDigits("") && Decimal("") == 0
            && Places(p).portValue == 0
  {
    hide UrlStep, HostStep, HostShape, UrlShape, Joined, PiecesOf, UrlFold, Acceptable;
    AcceptedPieces(buf, connect);
  }

  // ----- a spelled URL is accepted -----

  function Shortened(s: string): string {
    if s == "" then "" else s[..|s| - 1]
  }

  /** Without the last byte. */
  function Shorter(p: Pieces): Pieces {
    if p.fragment != "" then p.(fragment := Shortened(p.fragment))
    else if p.hashes != "" then p.(hashes := Shortened(p.hashes))
    else if p.query != "" then p.(query := Shortened(p.query))
    else if p.mark != "" then p.(mark := Shortened(p.mark))
    else if p.path != "" then p.(path := Shortened(p.path))
    else if p.server != "" then p.(server := Shortened(p.server))
    else if p.slashes != "" then p.(slashes := Shortened(p.slashes))
    else p.(scheme := Shortened(p.scheme))
  }

  /** The last piece there is. */
  function LastPiece(p: Pieces): string {
    if p.fragment != "" then p.fragment else if p.hashes != "" then p.hashes else if p.query != "" then p.query
    else if p.mark != "" then p.mark else if p.path != "" then p.path else if p.server != "" then p.server
    else if p.slashes != "" then p.slashes else p.scheme
  }

  /** The state behind the pieces. */
  function StateOf(connect: bool, p: Pieces): State {
    if p.fragment != "" then ReqFragment
    else if p.hashes != "" then ReqFragmentStart
    else if p.query != "" then ReqQueryString
    else if p.mark != "" then ReqQueryStringStart
    else if p.path != "" then ReqPath
    else if p.server != "" then if p.server[|p.server| - 1] == '@' then ReqServerWithAt else ReqServer
    else if p.slashes == ":" then ReqSchemaSlash
    else if p.slashes == ":/" then ReqSchemaSlashSlash
    else if p.slashes != "" || (p.scheme == "" && connect) then ReqServerStart
    else if p.scheme != "" then ReqSchema
    else ReqSpacesBeforeUrl
  }

  /** There are no two `@` in a row. */
  predicate SingleAts(s: string) {
    forall k :: 0 <= k < |s| - 1 ==> !(s[k] == '@' && s[k + 1] == '@')
  }

  /** The automaton can read these pieces. */
  predicate Readable(connect: bool, p: Pieces) {
    && Legal(p) && UpTo(StateOf(connect, p), connect, p) && SingleAts(p.server)
    && (connect && p.path != "" ==> p.path[0] == '/')
  }

  lemma AllShorter(s: string, p: char -> bool)
    requires All(s, p)
    ensures All(Shortened(s), p) && (s != "" ==> p(s[|s| - 1]) && s == Shortened(s) + [s[|s| - 1]])
  {
  }

  function LastByteOf(p: Pieces): char
    requires LastPiece(p) != ""
  {
    LastPiece(p)[|LastPiece(p)| - 1]
  }

  lemma LegalShorter(p: Pieces)
    requires Legal(p)
    ensures Legal(Shorter(p))
  {
    AllShorter(p.scheme, IsAlpha);
    AllShorter(p.server, IsServerByte);
    AllShorter(p.path, IsUrlChar);
    AllShorter(p.query, IsQueryChar);
    AllShorter(p.hashes, IsHash);
    AllShorter(p.fragment, IsFragmentChar);
    hide All;
  }

  /** A step back, as far as the pieces go. */
  lemma PiecesBack(connect: bool, p: Pieces)
    requires UpTo(StateOf(connect, p), connect, p) && p != NO_PIECES
    ensures LastPiece(p) != "" && Extended(Shorter(p), StateOf(connect, p), LastByteOf(p)) == p
  {
  }

  lemma UpToShorter(connect: bool, p: Pieces)
    requires UpTo(StateOf(connect, p), connect, p) && p != NO_PIECES && SingleAts(p.server)
    requires p.fragment == p.hashes == ""
    ensures var p0 := Shorter(p); UpTo(StateOf(connect, p0), connect, p0) && SingleAts(p0.server)
  {
  }

  lemma UpToShorterFragment(connect: bool, p: Pieces)
    requires UpTo(StateOf(connect, p), connect, p) && (p.fragment != "" || p.hashes != "")
    ensures var p0 := Shorter(p); UpTo(StateOf(connect, p0), connect, p0) && p0.server == p.server
  {
  }

  /** A step back, as far as the automaton goes. */
  predicate Leads(connect: bool, p: Pieces) {
    && LastPiece(p) != ""
    && ParseUrlChar(StateOf(connect, Shorter(p)), LastByteOf(p)) == StateOf(connect, p)
  }

  lemma FragmentLeads(connect: bool, p: Pieces)
    requires Readable(connect, p) && p.fragment != ""
    ensures Leads(connect, p)
  {
    NoHash();
    var ch := p.fragment[|p.fragment| - 1];
    NoSpaces(ch);
    assert IsFragmentChar(ch) by { AllShorter(p.fragment, IsFragmentChar); }
    hide IsUserinfoChar, IsUrlChar, IsAlpha, All;
  }

  lemma HashLeads(connect: bool, p: Pieces)
    requires Readable(connect, p) && p.fragment == "" && p.hashes != ""
    ensures Leads(connect, p)
  {
    NoHash();
    assert p.hashes[|p.hashes| - 1] == '#' by { AllShorter(p.hashes, IsHash); }
    hide IsUserinfoChar, IsUrlChar, IsAlpha, All;
  }

  lemma QueryLeads(connect: bool, p: Pieces)
    requires Readable(connect, p) && p.fragment == p.hashes == "" && (p.query != "" || p.mark != "")
    ensures Leads(connect, p)
  {
    NoHash();
    if p.query != "" {
      var ch := p.query[|p.query| - 1];
      NoSpaces(ch);
      assert IsQueryChar(ch) by { AllShorter(p.query, IsQueryChar); }
    }
    hide IsUserinfoChar, IsUrlChar, IsAlpha, All;
  }

  lemma PathLeads(connect: bool, p: Pieces)
    requires Readable(connect, p) && p.fragment == p.hashes == p.query == p.mark == "" && p.path != ""
    ensures Leads(connect, p)
  {
    SlashOrStar();
    var ch := p.path[|p.path| - 1];
    NoSpaces(ch);
    assert IsUrlChar(ch) by { AllShorter(p.path, IsUrlChar); }
    hide IsUserinfoChar, IsUrlChar, IsAlpha, All;
  }

  lemma ServerLeads(connect: bool, p: Pieces)
    requires Readable(connect, p) && p.fragment == p.hashes == p.query == p.mark == p.path == "" && p.server != ""
    ensures Leads(connect, p)
  {
    var ch := p.server[|p.server| - 1];
    assert IsServerByte(ch) by { AllShorter(p.server, IsServerByte); }
    var p0 := Shorter(p);
    var s0 := StateOf(connect, p0);
    assert s0.ReqServerStart? || s0.ReqServer? || (s0.ReqServerWithAt? && ch != '@') by {
      UpToShorter(connect, p);
      hide Legal, All;
    }
    hide Legal, UpTo, StateOf, Shorter, IsServerByte, All;
    ServerByteLeads(s0, ch);
    assert StateOf(connect, p) == if ch == '@' then ReqServerWithAt else ReqServer by { ServerState(connect, p); }
    assert LastPiece(p) == p.server;
  }

  lemma ServerState(connect: bool, p: Pieces)
    requires p.fragment == p.hashes == p.query == p.mark == p.path == "" && p.server != ""
    ensures StateOf(connect, p) == if p.server[|p.server| - 1] == '@' then ReqServerWithAt else ReqServer
  {
  }

  lemma ServerByteLeads(s: State, ch: char)
    requires IsServerByte(ch) && (s.ReqServerStart? || s.ReqServer? || (s.ReqServerWithAt? && ch != '@'))
    ensures ParseUrlChar(s, ch) == if ch == '@' then ReqServerWithAt else ReqServer
  {
    ServerByteIs(ch);
    NoSpaces(ch);
    assert ParseServerChar('@').ReqServerWithAt?;
    hide IsUserinfoChar, IsUrlChar, IsAlpha, IsServerChar, ParseServerChar;
  }

  lemma SchemeLeads(connect: bool, p: Pieces)
    requires Readable(connect, p) && p.fragment == p.hashes == p.query == p.mark == p.path == p.server == ""
    requires p != NO_PIECES
    ensures Leads(connect, p)
  {
    if p.slashes == "" {
      var ch := p.scheme[|p.scheme| - 1];
      assert IsAlpha(ch) by { AllShorter(p.scheme, IsAlpha); }
      NoSpaces(ch);
      SlashOrStar();
      assert ch != '/' && ch != '*' && ch != ':';
    }
    hide IsUserinfoChar, IsUrlChar, IsAlpha, All;
  }

  lemma NoSpaces(ch: char)
    ensures IsServerChar(ch) || ch == '@' || IsFragmentChar(ch) || IsAlpha(ch) ==>
              ch != ' ' && ch != CR && ch != LF && ch != HTAB && ch as int != 12
  {
  }

  lemma Back(connect: bool, p: Pieces)
    requires Readable(connect, p) && p != NO_PIECES
    ensures Leads(connect, p) && Readable(connect, Shorter(p)) && Joined(p) == Joined(Shorter(p)) + [LastByteOf(p)]
    ensures Extended(Shorter(p), StateOf(connect, p), LastByteOf(p)) == p
  {
    hide Legal, UpTo, SingleAts, Joined, ParseUrlChar, Leads, StateOf, Extended;
    LegalShorter(p);
    PiecesBack(connect, p);
    if p.fragment != "" || p.hashes != "" {
      UpToShorterFragment(connect, p);
      if p.fragment != "" {
        FragmentLeads(connect, p);
      } else {
        HashLeads(connect, p);
      }
    } else {
      UpToShorter(connect, p);
      if p.query != "" || p.mark != "" {
        QueryLeads(connect, p);
      } else if p.path != "" {
        PathLeads(connect, p);
      } else if p.server != "" {
        ServerLeads(connect, p);
      } else {
        SchemeLeads(connect, p);
      }
    }
    JoinedMore(Shorter(p), StateOf(connect, p), connect, LastByteOf(p));
  }

  /** A byte behind the text changes nothing before it. */
  lemma {:induction false} FoldBefore(buf: string, ch: char, connect: bool, k: nat)
    requires k <= |buf|
    ensures UrlFold(buf + [ch], connect, k) == UrlFold(buf, connect, k)
    ensures PiecesOf(buf + [ch], connect, k) == PiecesOf(buf, connect, k)
  {
    hide UrlStep, Extended;
    if k > 0 {
      FoldBefore(buf, ch, connect, k - 1);
    }
  }

  /** Such pieces are read as they are. */
  lemma {:induction false} SpellsBack(connect: bool, p: Pieces)
    requires Readable(connect, p)
    ensures var buf := Joined(p);
            UrlFold(buf, connect, |buf|).s == StateOf(connect, p) && PiecesOf(buf, connect, |buf|) == p
    decreases |Joined(p)|
  {
    hide Legal, Joined, ParseUrlChar, UrlFold, PiecesOf, Readable, Extended;
    if p == NO_PIECES {
      NothingJoined();
      NothingFolded(connect);
    } else {
      Back(connect, p);
      var p0 := Shorter(p);
      var ch, buf := LastByteOf(p), Joined(p0);
      SpellsBack(connect, p0);
      FoldBefore(buf, ch, connect, |buf|);
      OneMoreFolded(buf, ch, connect);
    }
  }

  lemma NothingFolded(connect: bool)
    ensures UrlFold("", connect, 0).s == StateOf(connect, NO_PIECES) && PiecesOf("", connect, 0) == NO_PIECES
  {
  }

  lemma OneMoreFolded(buf: string, ch: char, connect: bool)
    ensures var b, n := buf + [ch], |buf|;
            && UrlFold(b, connect, n + 1).s == ParseUrlChar(UrlFold(b, connect, n).s, ch)
            && PiecesOf(b, connect, n + 1) == Extended(PiecesOf(b, connect, n), UrlFold(b, connect, n + 1).s, ch)
  {
    hide ParseUrlChar, Extended;
  }

  /** Without the last byte. */
  function HostShorter(h: HostPieces): HostPieces {
    if h.port != "" then h.(port := Shortened(h.port))
    else if h.colon != "" then h.(colon := Shortened(h.colon))
    else if h.close != "" then h.(close := Shortened(h.close))
    else if h.zone != "" then h.(zone := Shortened(h.zone))
    else if h.percent != "" then h.(percent := Shortened(h.percent))
    else if h.name != "" then h.(name := Shortened(h.name))
    else if h.open != "" then h.(open := Shortened(h.open))
    else if h.at != "" then h.(at := Shortened(h.at))
    else h.(userinfo := Shortened(h.userinfo))
  }

  /** The last piece there is. */
  function LastHostPiece(h: HostPieces): string {
    if h.port != "" then h.port else if h.colon != "" then h.colon else if h.close != "" then h.close
    else if h.zone != "" then h.zone else if h.percent != "" then h.percent else if h.name != "" then h.name
    else if h.open != "" then h.open else if h.at != "" then h.at else h.userinfo
  }

  function LastHostByte(h: HostPieces): char
    requires LastHostPiece(h) != ""
  {
    LastHostPiece(h)[|LastHostPiece(h)| - 1]
  }

  /** The state behind the pieces. */
  function HostStateOf(foundAt: bool, h: HostPieces): HostState {
    if h.port != "" then PortDigits
    else if h.colon != "" then PortStart
    else if h.close != "" then V6End
    else if h.zone != "" then V6Zone
    else if h.percent != "" then V6ZoneStart
    else if h.name != "" then if h.open == "" then HostName else V6
    else if h.open != "" then V6Start
    else if h.at != "" || !foundAt then HostStart
    else if h.userinfo != "" then Userinfo else UserinfoStart
  }

  /** The automaton can read these pieces. */
  predicate HostReadable(foundAt: bool, h: HostPieces) {
    HostLegal(h) && HostUpTo(HostStateOf(foundAt, h), foundAt, h)
  }

  lemma HostLegalShorter(h: HostPieces)
    requires HostLegal(h) && (h.open == "" || h.open == "[")
    ensures HostLegal(HostShorter(h))
  {
    hide HostShorter;
    NameShorter(h);
    AllShorter(h.userinfo, IsUserinfoChar);
    AllShorter(h.zone, IsZoneChar);
    AllShorter(h.port, IsNum);
    PartsShorter(h);
    hide All, IsUserinfoChar, IsZoneChar, IsNum, IsHostChar, IsV6Char;
  }

  /** Each piece is as it was, or shorter. */
  lemma PartsShorter(h: HostPieces)
    ensures var h0 := HostShorter(h);
            && (h0.userinfo == h.userinfo || h0.userinfo == Shortened(h.userinfo))
            && (h0.zone == h.zone || h0.zone == Shortened(h.zone))
               && (h0.port == h.port || h0.port == Shortened(h.port))
  {
    hide Shortened;
  }

  lemma NameShorter(h: HostPieces)
    requires HostLegal(h) && (h.open == "" || h.open == "[")
    ensures var h0 := HostShorter(h);
            (h0.open == "" ==> All(h0.name, IsHostChar)) && (h0.open != "" ==> All(h0.name, IsV6Char))
  {
    NamePieces(h);
    if h.open == "" {
      AllShorter(h.name, IsHostChar);
    } else {
      AllShorter(h.name, IsV6Char);
    }
    NoNameIsAll();
    hide All, HostShorter, IsUserinfoChar, IsZoneChar, IsNum, IsHostChar, IsV6Char;
  }

  lemma NamePieces(h: HostPieces)
    requires h.open == "" || h.open == "["
    ensures var h0 := HostShorter(h);
            && (h0.name == h.name || h0.name == Shortened(h.name))
            && (h0.open == h.open || (h0.open == "" && h0.name == ""))
  {
  }

  lemma NoNameIsAll()
    ensures All("", IsHostChar) && All("", IsV6Char)
  {
  }

  lemma HostPiecesBack(foundAt: bool, h: HostPieces)
    requires HostUpTo(HostStateOf(foundAt, h), foundAt, h) && h != NO_HOST
    ensures LastHostPiece(h) != "" && HostExtended(HostShorter(h), HostStateOf(foundAt, h), LastHostByte(h)) == h
    ensures !HostStateOf(foundAt, h).UserinfoStart? && !HostStateOf(foundAt, h).HostDead?
    ensures h.open == "" || h.open == "["
  {
    hide HostShorter, HostExtended, LastHostPiece;
    InfoBeforeAt(foundAt, h);
    hide HostUpTo;
    LastIsBack(foundAt, h);
  }

  lemma InfoBeforeAt(foundAt: bool, h: HostPieces)
    requires HostUpTo(HostStateOf(foundAt, h), foundAt, h)
    ensures (!foundAt ==> h.userinfo == "") && (h.open == "" || h.open == "[")
  {
  }

  lemma LastIsBack(foundAt: bool, h: HostPieces)
    requires h != NO_HOST && (!foundAt ==> h.userinfo == "")
    ensures LastHostPiece(h) != "" && HostExtended(HostShorter(h), HostStateOf(foundAt, h), LastHostByte(h)) == h
  {
    Unshortened(LastHostPiece(h));
    hide Shortened;
  }

  lemma Unshortened(s: string)
    ensures s != "" ==> Shortened(s) + [s[|s| - 1]] == s
  {
  }

  lemma HostUpToShorter(foundAt: bool, h: HostPieces)
    requires HostUpTo(HostStateOf(foundAt, h), foundAt, h) && h != NO_HOST
    ensures var h0 := HostShorter(h); HostUpTo(HostStateOf(foundAt, h0), foundAt, h0)
  {
  }

  lemma HostLeads(foundAt: bool, h: HostPieces)
    requires HostReadable(foundAt, h) && h != NO_HOST && LastHostPiece(h) != ""
    ensures HostChar(HostStateOf(foundAt, HostShorter(h)), LastHostByte(h)) == HostStateOf(foundAt, h)
  {
    DelimitersAreNone();
    var ch := LastHostByte(h);
    if h.port != "" {
      assert IsNum(ch) by { AllShorter(h.port, IsNum); }
    } else if h.colon != "" || h.close != "" {
    } else if h.zone != "" {
      assert IsZoneChar(ch) by { AllShorter(h.zone, IsZoneChar); }
    } else if h.name != "" && h.percent == "" {
      assert if h.open == "" then IsHostChar(ch) else IsV6Char(ch) by {
        if h.open == "" {
          AllShorter(h.name, IsHostChar);
        } else {
          AllShorter(h.name, IsV6Char);
        }
      }
    } else if h.at == "" && h.open == "" && h.percent == "" {
      assert IsUserinfoChar(ch) by { AllShorter(h.userinfo, IsUserinfoChar); }
    }
    hide All, IsUserinfoChar, IsHostChar, IsV6Char, IsZoneChar, IsNum;
  }

  lemma HostBack(foundAt: bool, h: HostPieces)
    requires HostReadable(foundAt, h) && h != NO_HOST
    ensures LastHostPiece(h) != "" && HostReadable(foundAt, HostShorter(h))
    ensures HostChar(HostStateOf(foundAt, HostShorter(h)), LastHostByte(h)) == HostStateOf(foundAt, h)
    ensures HostExtended(HostShorter(h), HostStateOf(foundAt, h), LastHostByte(h)) == h
    ensures HostJoined(h) == HostJoined(HostShorter(h)) + [LastHostByte(h)]
  {
    hide HostLegal, HostUpTo, HostJoined, HostChar, HostStateOf, HostExtended, HostShorter;
    HostPiecesBack(foundAt, h);
    HostLegalShorter(h);
    HostUpToShorter(foundAt, h);
    HostLeads(foundAt, h);
    HostJoinedMore(HostShorter(h), HostStateOf(foundAt, h), foundAt, LastHostByte(h));
  }

  /** Such pieces of an authority are read as they are. */
  lemma {:induction false} HostSpellsBack(buf: string, u0: Fields, foundAt: bool, h: HostPieces)
    requires HostReadable(foundAt, h) && u0.host.Slice? && u0.host.off + |HostJoined(h)| <= |buf|
    requires buf[u0.host.off..u0.host.off + |HostJoined(h)|] == HostJoined(h)
    ensures var a, x0 := u0.host.off, HostBegin(u0, foundAt);
            var k := a + |HostJoined(h)|;
            HostFold(buf, x0, a, k).s == HostStateOf(foundAt, h) && HostPiecesOf(buf, x0, a, k) == h
    decreases |HostJoined(h)|
  {
    hide HostJoined, HostChar, HostFold, HostPiecesOf, HostReadable, HostExtended;
    var a, x0 := u0.host.off, HostBegin(u0, foundAt);
    if h == NO_HOST {
      NoHostJoined();
      NothingHostFolded(buf, u0, foundAt);
    } else {
      HostBack(foundAt, h);
      var h0 := HostShorter(h);
      var n := |HostJoined(h0)|;
      assert buf[a..a + n] == buf[a..a + n + 1][..n];
      assert buf[a + n] == buf[a..a + n + 1][n];
      HostSpellsBack(buf, u0, foundAt, h0);
      OneMoreHostFolded(buf, x0, a, a + n);
    }
  }

  lemma NoHostJoined()
    ensures HostJoined(NO_HOST) == ""
  {
  }

  lemma NothingHostFolded(buf: string, u0: Fields, foundAt: bool)
    requires u0.host.Slice? && u0.host.off <= |buf|
    ensures var a, x0 := u0.host.off, HostBegin(u0, foundAt);
            HostFold(buf, x0, a, a).s == HostStateOf(foundAt, NO_HOST) && HostPiecesOf(buf, x0, a, a) == NO_HOST
  {
  }

  lemma OneMoreHostFolded(buf: string, x: HostScan, a: nat, k: nat)
    requires a <= k < |buf|
    ensures HostFold(buf, x, a, k + 1).s == HostChar(HostFold(buf, x, a, k).s, buf[k])
    ensures HostPiecesOf(buf, x, a, k + 1)
            == HostExtended(HostPiecesOf(buf, x, a, k), HostFold(buf, x, a, k + 1).s, buf[k])
  {
    hide HostChar, HostExtended;
  }

  function HostFrom(a: Authority, at: string): HostPieces {
    var colon := if a.port == "" then "" else ":";
    match a.host
    case Name(name) => HostPieces(a.userinfo, at, "", name, "", "", "", colon, a.port)
    case Address(address, zone) =>
      HostPieces(a.userinfo, at, "[", address, if zone == "" then "" else "%", zone, "]", colon, a.port)
  }

  function PiecesFrom(t: Target, m: Marks): Pieces {
    match t
    case Absolute(scheme, authority, tail) =>
      Pieces(scheme, "://", SpelledAuthority(authority, m.at), tail.path, m.question, tail.query, m.hashes,
             tail.fragment)
    case Origin(tail) => Pieces("", "", "", tail.path, m.question, tail.query, m.hashes, tail.fragment)
    case ForConnect(authority) =>
      Pieces("", "", SpelledAuthority(authority, m.at), "", m.question, "", m.hashes, "")
  }

  lemma HostFromIs(a: Authority, at: string)
    requires GoodAuthority(a) && (at == "@" || (at == "" && a.userinfo == ""))
    ensures var h := HostFrom(a, at);
            && Finished(at != "", h) && Authority(h.userinfo, HostOf(h), h.port) == a && h.at == at
            && HostReadable(at != "", h) && HostComplete(HostStateOf(at != "", h)) && h != NO_HOST
            && AreDigits(h.port) && Decimal(h.port) <= MAX_PORT && HostJoined(h) == SpelledAuthority(a, at)
  {
    HostSpelled(HostFrom(a, at), at != "");
    hide IsUserinfoChar, IsHostChar, IsV6Char, IsZoneChar, Decimal, HostJoined, SpelledAuthority;
  }

  /** The text of an authority as the outer automaton sees it. */
  lemma AuthorityBytes(a: Authority, at: string)
    requires GoodAuthority(a) && (at == "@" || (at == "" && a.userinfo == ""))
    ensures var text := SpelledAuthority(a, at);
            text != "" && All(text, IsServerByte) && SingleAts(text) && ('@' in text <==> at == "@")
  {
    var rest := PrintHost(a.host) + Behind(':', a.port);
    RestIsServer(a);
    var text := SpelledAuthority(a, at);
    var n := |a.userinfo|;
    assert text == a.userinfo + at + rest;
    hide PrintHost, Behind, GoodAuthority;
    OneAt(a.userinfo, at, rest);
  }

  lemma OneAt(info: string, at: string, rest: string)
    requires All(info, IsServerChar) && All(rest, IsServerChar) && rest != "" && (at == "@" || (at == "" && info == ""))
    ensures var text := info + at + rest;
            text != "" && All(text, IsServerByte) && SingleAts(text) && ('@' in text <==> at == "@")
  {
    assert !IsServerChar('@');
    hide IsServerChar;
    var text, n := info + at + rest, |info|;
    assert forall k :: 0 <= k < |text| ==>
                         text[k] == if k < n then info[k] else if k < n + |at| then '@' else rest[k - n - |at|];
    assert at == "@" ==> text[n] == '@';
  }

  lemma PiecesFromIs(t: Target, m: Marks)
    requires GoodParts(t) && GoodMarks(t, m) && !Unconnectable(t)
    ensures var p, connect := PiecesFrom(t, m), t.ForConnect?;
            && Acceptable(connect, p) && Readable(connect, p) && p != NO_PIECES
            && (p.server == "" <==> t.Origin?) && (t.Origin? ==> m.at == "") && ('@' in p.server <==> m.at == "@")
  {
    hide IsUserinfoChar, IsUrlChar, IsAlpha, IsServerChar, SpelledAuthority, All, GoodAuthority, UpTo, StateOf;
    if !t.Origin? {
      AuthorityBytes(t.authority, m.at);
    }
    NothingIsAll();
    UpToFrom(t, m);
  }

  lemma NothingIsAll()
    ensures All("", IsAlpha) && All("", IsServerByte) && All("", IsUrlChar) && All("", IsQueryChar)
            && All("", IsFragmentChar)
  {
  }

  lemma UpToFrom(t: Target, m: Marks)
    requires GoodParts(t) && GoodMarks(t, m)
    requires !t.Origin? ==> SpelledAuthority(t.authority, m.at) != ""
    ensures UpTo(StateOf(t.ForConnect?, PiecesFrom(t, m)), t.ForConnect?, PiecesFrom(t, m))
  {
    hide SpelledAuthority, All, GoodAuthority;
    if t.Absolute? {
      UpToAbsolute(t, m);
    }
  }

  lemma UpToAbsolute(t: Target, m: Marks)
    requires t.Absolute? && GoodParts(t) && GoodMarks(t, m) && SpelledAuthority(t.authority, m.at) != ""
    ensures UpTo(StateOf(false, PiecesFrom(t, m)), false, PiecesFrom(t, m))
  {
    hide SpelledAuthority, All, GoodAuthority;
  }

  lemma TargetIsBack(t: Target, m: Marks)
    requires GoodParts(t) && GoodMarks(t, m)
    ensures TargetOf(t.ForConnect?, PiecesFrom(t, m), if t.Origin? then NO_HOST else HostFrom(t.authority, m.at)) == t
    ensures var p := PiecesFrom(t, m); p.mark == m.question && p.hashes == m.hashes
  {
    hide All, SpelledAuthority;
  }

  /** The outer automaton reads a spelled URL through. */
  lemma SpelledIsRead(buf: string, connect: bool, p: Pieces)
    requires Readable(connect, p) && p != NO_PIECES && Acceptable(connect, p) && buf == Joined(p)
    ensures var x := UrlFold(buf, connect, |buf|); !x.s.Dead? && x.u == Places(p) && (x.foundAt <==> '@' in p.server)
  {
    hide Legal, UpTo, Joined, UrlFold, PiecesOf, Places, SingleAts;
    SpellsBack(connect, p);
    StateNotDead(connect, p);
    PiecesAt(buf, connect, |buf|);
  }

  lemma StateNotDead(connect: bool, p: Pieces)
    ensures !StateOf(connect, p).Dead?
  {
  }

  /** The automaton of the authority does. */
  lemma AuthorityIsRead(buf: string, x: UrlScan, p: Pieces, h: HostPieces)
    requires buf == Joined(p) && x.u == Places(p) && p.server != "" && x.u.host.End() <= |buf|
    requires HostReadable(x.foundAt, h) && HostJoined(h) == p.server && HostComplete(HostStateOf(x.foundAt, h))
    ensures var y := HostScanOf(buf, x);
            HostComplete(y.s) && y.u == HostPlaces(Places(p), |p.scheme| + |p.slashes|, h)
  {
    hide Joined, HostJoined, HostReadable, HostFold, HostPiecesOf, HostPlaces, HostStateOf;
    ServerIsThere(p);
    var a := |p.scheme| + |p.slashes|;
    assert x.u.host == Slice(a, |p.server|);
    HostSpellsBack(buf, x.u, x.foundAt, h);
    CompleteLives(HostStateOf(x.foundAt, h));
    HostPiecesAt(buf, x.u, x.foundAt, x.u.host.End());
  }

  lemma CompleteLives(s: HostState)
    requires HostComplete(s)
    ensures !s.HostDead?
  {
  }

  /** The checks behind the loops pass. */
  lemma ChecksPass(buf: string, connect: bool, x: UrlScan, p: Pieces, h: HostPieces)
    requires x == UrlFold(buf, connect, |buf|) && !x.s.Dead? && x.u == Places(p) && Acceptable(connect, p)
    requires p.server != "" && x.u.host.End() <= |buf| && buf == Joined(p)
    requires var y := HostScanOf(buf, x);
             HostComplete(y.s) && y.u == HostPlaces(Places(p), |p.scheme| + |p.slashes|, h)
    requires AreDigits(h.port) && Decimal(h.port) <= MAX_PORT && HostJoined(h) == p.server
    requires connect ==> h.userinfo == "" && h.port != ""
    ensures var u := HostPlaces(Places(p), |p.scheme| + |p.slashes|, h);
            Parse(buf, connect) == Accepted(u.(portValue := Decimal(h.port)))
  {
    hide UrlStep, HostStep, HostShape, UrlShape, HostFold, UrlFold, Joined, Decimal;
    AuthorityShape(buf, connect);
    var y := HostScanOf(buf, x);
    PortIsDigits(buf, x.u, x.u.host.off, x.foundAt, y, x.u.host.End());
    HostJoinedLength(h);
    PortIsThere(h);
    hide HostJoined;
    ServerIsThere(p);
    if h.port != "" {
      assert y.u.port.Text(buf) == h.port;
    } else {
      NoPort();
    }
  }

  lemma NoPort()
    ensures Decimal("") == 0
  {
  }

  lemma NoAuthorityChecks(buf: string, connect: bool, p: Pieces)
    requires var x := UrlFold(buf, connect, |buf|); !x.s.Dead? && x.u == Places(p)
    requires p.server == "" && Acceptable(connect, p)
    ensures Parse(buf, connect) == Accepted(Places(p))
  {
    hide UrlStep, UrlShape, UrlFold;
  }

  /** Every spelled URL is accepted, with its components where they are. */
  lemma SpelledIsAccepted(t: Target, m: Marks)
    requires GoodParts(t) && GoodMarks(t, m) && !Unconnectable(t)
    ensures Parse(Spelled(t, m), t.ForConnect?) == Accepted(SpelledPlaces(t, m)) && Spelled(t, m) != ""
  {
    hide GoodMarks, UrlStep, UrlFold, Joined, HostJoined, Spelled, SpelledPlaces, Acceptable, Readable, Finished,
      HostReadable, HostPlaces, Places, SpelledAuthority, AreDigits, Decimal, HostComplete, HostScanOf, PiecesFrom,
      HostFrom, Parse, TargetOf, GoodTail, GoodHost, All;
    var p, connect := PiecesFrom(t, m), t.ForConnect?;
    var h := if t.Origin? then NO_HOST else HostFrom(t.authority, m.at);
    var buf := Spelled(t, m);
    PiecesFromIs(t, m);
    TargetIsBack(t, m);
    if !t.Origin? {
      AuthorityMarks(t, m);
      HostFromIs(t.authority, m.at);
      ServerFrom(t, m);
    } else {
      MarksOfNone(t, m);
    }
    PiecesSpelled(connect, p, m.at != "", h);
    PlacesAgree(connect, p, m.at != "", h);
    SpelledIsRead(buf, connect, p);
    SomethingJoined(p);
    var x := UrlFold(buf, connect, |buf|);
    if t.Origin? {
      NoAuthorityChecks(buf, connect, p);
      NoPort();
      NothingOfHost(p);
    } else {
      ServerIsThere(p);
      HostSlice(p);
      AuthorityIsRead(buf, x, p, h);
      ConnectsWith(t, m);
      ChecksPass(buf, connect, x, p, h);
    }
  }

  lemma AuthorityMarks(t: Target, m: Marks)
    requires GoodMarks(t, m) && !t.Origin? && GoodParts(t)
    ensures (m.at == "@" || (m.at == "" && t.authority.userinfo == "")) && GoodAuthority(t.authority)
  {
  }

  lemma ServerFrom(t: Target, m: Marks)
    requires !t.Origin?
    ensures PiecesFrom(t, m).server == SpelledAuthority(t.authority, m.at)
  {
  }

  lemma MarksOfNone(t: Target, m: Marks)
    requires GoodMarks(t, m) && t.Origin?
    ensures m.at == NO_HOST.at && NO_HOST.port == ""
  {
  }

  lemma SomethingJoined(p: Pieces)
    requires p != NO_PIECES
    ensures Joined(p) != ""
  {
  }

  lemma NothingOfHost(p: Pieces)
    ensures Places(p).portValue == 0 && AreDigits("")
  {
  }

  lemma HostSlice(p: Pieces)
    requires p.server != ""
    ensures Places(p).host == Slice(|p.scheme| + |p.slashes|, |p.server|)
  {
  }

  lemma ConnectsWith(t: Target, m: Marks)
    requires !t.Origin? && !Unconnectable(t)
    ensures var h := HostFrom(t.authority, m.at); t.ForConnect? ==> h.userinfo == "" && h.port != ""
  {
  }

  lemma EmptyText(connect: bool)
    ensures Parse("", connect).Accepted? <==> !connect
  {
  }

  /** The URL parser accepts exactly what may be written: a text is accepted if and only if it is a target of legal
      components with the marks between them, and no authority after CONNECT without a port or with user information; or
      if it is empty and not for CONNECT. */
  lemma AcceptedExactly(buf: string, connect: bool)
    ensures Parse(buf, connect).Accepted? <==>
            (buf == "" && !connect)
            || exists t, m :: buf == Spelled(t, m) && GoodParts(t) && GoodMarks(t, m) && !Unconnectable(t)
                           && (t.ForConnect? <==> connect)
  {
    hide Parse, Spelled, GoodParts, GoodMarks, Unconnectable, SpelledPlaces;
    EmptyText(connect);
    if buf != "" && Parse(buf, connect).Accepted? {
      var t, m := AcceptedIsSpelled(buf, connect);
    }
    if t, m :| buf == Spelled(t, m) && GoodParts(t) && GoodMarks(t, m) && !Unconnectable(t)
               && (t.ForConnect? <==> connect) {
      SpelledIsAccepted(t, m);
    }
  }

  /** The characters of the components. Those of user information are the unreserved ones and most delimiters of
      section 2.2 and section 2.3 of RFC 3986, those of a zone the unreserved ones and the percent sign. */
  lemma ComponentBytes(ch: char)
    ensures var alphanum := 'a' <= ch <= 'z' || 'A' <= ch <= 'Z' || '0' <= ch <= '9';
            && (IsUserinfoChar(ch) <==> alphanum || ch in "-_.!~*'()%;:&=+$,")
            && (IsHostChar(ch) <==> alphanum || ch in ".-")
            && (IsV6Char(ch) <==> '0' <= ch <= '9' || 'a' <= ch <= 'f' || 'A' <= ch <= 'F' || ch in ":.")
            && (IsZoneChar(ch) <==> alphanum || ch in "%.-_~")
            && (IsUrlChar(ch) <==> 33 <= ch as int <= 126 && ch != '#' && ch != '?')
  {
  }
}
