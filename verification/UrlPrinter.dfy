/** The URL parser inverts a printer of URLs. */
module UrlPrinter {
  import opened Bytes
  import opened HttpTypes
  import opened HttpAutomaton
  import opened HttpNumbers
  import opened Stretches
  import opened Url

  /** A host is a name, or an IPv6 address with an optional zone, printed in brackets. */
  datatype Host = Name(name: string) | Address(address: string, zone: string)

  /** An empty user information or port is not printed. */
  datatype Authority = Authority(userinfo: string, host: Host, port: string)

  /** What follows the authority; an empty query or fragment is not printed. */
  datatype Tail = Tail(path: string, query: string, fragment: string)

  datatype Target =
    | Absolute(scheme: string, authority: Authority, tail: Tail)
    | Origin(tail: Tail)
    | ForConnect(authority: Authority)

  function HostText(h: Host): string {
    match h
    case Name(name) => name
    case Address(address, zone) => address + if zone == "" then "" else "%" + zone
  }

  function PrintHost(h: Host): string {
    if h.Name? then HostText(h) else "[" + HostText(h) + "]"
  }

  function Before(s: string, mark: char): string {
    if s == "" then "" else s + [mark]
  }

  function Behind(mark: char, s: string): string {
    if s == "" then "" else [mark] + s
  }

  function PrintAuthority(a: Authority): string {
    Before(a.userinfo, '@') + PrintHost(a.host) + Behind(':', a.port)
  }

  function PrintTail(t: Tail): string {
    t.path + Behind('?', t.query) + Behind('#', t.fragment)
  }

  function Print(t: Target): string {
    match t
    case Absolute(scheme, authority, tail) => scheme + "://" + PrintAuthority(authority) + PrintTail(tail)
    case Origin(tail) => PrintTail(tail)
    case ForConnect(authority) => PrintAuthority(authority)
  }

  predicate All(s: string, p: char -> bool) {
    forall k :: 0 <= k < |s| ==> p(s[k])
  }

  predicate IsQueryChar(ch: char) { IsUrlChar(ch) || ch == '?' }

  predicate IsFragmentChar(ch: char) { IsQueryChar(ch) || ch == '#' }

  predicate GoodHost(h: Host) {
    match h
    case Name(name) => name != "" && All(name, IsHostChar)
    case Address(address, zone) => address != "" && All(address, IsV6Char) && All(zone, IsZoneChar)
  }

  predicate GoodAuthority(a: Authority) {
    All(a.userinfo, IsUserinfoChar) && GoodHost(a.host) && AreDigits(a.port) && Decimal(a.port) <= 65535
  }

  /** A fragment must not begin with a further `#`. */
  predicate GoodTail(t: Tail) {
    && All(t.path, IsUrlChar) && All(t.query, IsQueryChar) && All(t.fragment, IsFragmentChar)
    && (t.fragment != "" ==> t.fragment[0] != '#')
  }

  predicate GoodParts(t: Target) {
    match t
    case Absolute(scheme, authority, tail) =>
      && scheme != "" && All(scheme, IsAlpha) && GoodAuthority(authority) && GoodTail(tail)
      && (tail.path != "" ==> tail.path[0] == '/')
    case Origin(tail) => GoodTail(tail) && tail.path != "" && (tail.path[0] == '/' || tail.path[0] == '*')
    case ForConnect(authority) => GoodAuthority(authority)
  }

  /** A fragment directly behind the authority. */
  predicate BareFragment(t: Target) {
    t.Absolute? && t.tail.path == t.tail.query == "" && t.tail.fragment != ""
  }

  /** A CONNECT request for something else than a host and a port. */
  predicate Unconnectable(t: Target) {
    t.ForConnect? && (t.authority.userinfo != "" || t.authority.port == "")
  }

  predicate Good(t: Target) {
    GoodParts(t) && !BareFragment(t)
  }

  // ----- where the components of a printed URL are -----

  function Present(off: nat, s: string): Slice {
    if s == "" then Absent else Slice(off, |s|)
  }

  function WithAuthority(u: Fields, off: nat, a: Authority): Fields {
    var h := off + |Before(a.userinfo, '@')|;
    var h' := if a.host.Name? then h else h + 1;
    u.(userinfo := Present(off, a.userinfo), host := Slice(h', |HostText(a.host)|),
       port := Present(h + |PrintHost(a.host)| + 1, a.port), portValue := if AreDigits(a.port) then Decimal(a.port)
               else 0)
  }

  function WithTail(u: Fields, off: nat, t: Tail): Fields {
    var q := off + |t.path|;
    u.(path := Present(off, t.path), query := Present(q + 1, t.query),
       fragment := Present(q + |Behind('?', t.query)| + 1, t.fragment))
  }

  function Expected(t: Target): Fields {
    match t
    case Absolute(scheme, authority, tail) =>
      WithTail(WithAuthority(NO_FIELDS.(schema := Slice(0, |scheme|)), |scheme| + 3, authority),
               |scheme| + 3 + |PrintAuthority(authority)|, tail)
    case Origin(tail) => WithTail(NO_FIELDS, 0, tail)
    case ForConnect(authority) => WithAuthority(NO_FIELDS, 0, authority)
  }

  // ----- reading a stretch of the buffer -----

  lemma AllButLast(s: string, p: char -> bool)
    requires All(s, p) && s != ""
    ensures All(s[..|s| - 1], p) && p(s[|s| - 1])
  {
  }

  /** The scan of the URL is `x` at position `i`. */
  ghost predicate Reads(buf: string, connect: bool, i: nat, x: UrlScan) {
    i <= |buf| && UrlFold(buf, connect, i) == x
  }

  lemma ReadByte(buf: string, connect: bool, i: nat, x: UrlScan)
    requires Reads(buf, connect, i, x) && i < |buf|
    ensures Reads(buf, connect, i + 1, UrlStep(x, buf[i], i))
  {
  }

  // ----- the URL automaton -----

  lemma {:induction false} SchemaRun(buf: string, s: string)
    requires Here(buf, 0, s) && s != "" && All(s, IsAlpha)
    ensures Reads(buf, false, |s|, UrlScan(ReqSchema, NO_FIELDS.(schema := Slice(0, |s|)), PSchema, false))
  {
    hide All;
    var n := |s| - 1;
    HereLast(buf, 0, s);
    AllButLast(s, IsAlpha);
    if n == 0 {
      ReadByte(buf, false, 0, UrlBegin(false));
    } else {
      SchemaRun(buf, s[..n]);
      ReadByte(buf, false, n, UrlScan(ReqSchema, NO_FIELDS.(schema := Slice(0, n)), PSchema, false));
    }
  }

  lemma SchemaEnd(buf: string, n: nat, u: Fields)
    requires Reads(buf, false, n, UrlScan(ReqSchema, u, PSchema, false)) && Here(buf, n, "://")
    ensures Reads(buf, false, n + 3, UrlScan(ReqServerStart, u, PSchema, false))
  {
    assert buf[n] == buf[n..n + 3][0] && buf[n + 1] == buf[n..n + 3][1] && buf[n + 2] == buf[n..n + 3][2];
    ReadByte(buf, false, n, UrlScan(ReqSchema, u, PSchema, false));
    ReadByte(buf, false, n + 1, UrlScan(ReqSchemaSlash, u, PSchema, false));
    ReadByte(buf, false, n + 2, UrlScan(ReqSchemaSlashSlash, u, PSchema, false));
  }

  /** The bytes of an authority other than `@`. */
  predicate IsServerChar(ch: char) {
    IsUserinfoChar(ch) || ch == '[' || ch == ']'
  }

  /** The scan is at the beginning of the authority or within it. */
  predicate InServer(x: UrlScan, i: nat) {
    || (x.s.ReqServerStart? && x.u.host.Absent? && !x.last.PHost?)
    || ((x.s.ReqServer? || x.s.ReqServerWithAt?) && x.last.PHost? && x.u.host.Slice? && x.u.host.End() == i)
  }

  /** The scan `n` bytes of the authority further. */
  function Served(x: UrlScan, i: nat, n: nat, s: State, at: bool): UrlScan {
    UrlScan(s, x.u.(host := if x.u.host.Slice? then Slice(x.u.host.off, x.u.host.len + n) else Slice(i, n)), PHost,
            x.foundAt || at)
  }

  lemma ServerByte(buf: string, connect: bool, i: nat, x: UrlScan)
    requires Reads(buf, connect, i, x) && InServer(x, i) && i < |buf| && IsServerChar(buf[i])
    ensures Reads(buf, connect, i + 1, Served(x, i, 1, ReqServer, false))
  {
    ReadByte(buf, connect, i, x);
  }

  lemma {:induction false} ServerRun(buf: string, connect: bool, i: nat, s: string, x: UrlScan)
    requires Reads(buf, connect, i, x) && InServer(x, i) && Here(buf, i, s) && s != "" && All(s, IsServerChar)
    ensures Reads(buf, connect, i + |s|, Served(x, i, |s|, ReqServer, false))
    decreases |s|
  {
    hide All, IsServerChar, Reads;
    var n := |s| - 1;
    HereLast(buf, i, s);
    AllButLast(s, IsServerChar);
    if n == 0 {
      ServerByte(buf, connect, i, x);
    } else {
      ServerRun(buf, connect, i, s[..n], x);
      ServerByte(buf, connect, i + n, Served(x, i, n, ReqServer, false));
    }
  }

  lemma ServerAt(buf: string, connect: bool, i: nat, x: UrlScan)
    requires Reads(buf, connect, i, x) && InServer(x, i) && x.s.ReqServer? && i < |buf| && buf[i] == '@'
    ensures Reads(buf, connect, i + 1, Served(x, i, 1, ReqServerWithAt, true))
  {
    ReadByte(buf, connect, i, x);
  }

  /** The whole authority. */
  lemma AuthorityRun(buf: string, connect: bool, i: nat, x: UrlScan, a: Authority)
    requires Reads(buf, connect, i, x) && x.s.ReqServerStart? && x.u.host.Absent? && !x.last.PHost? && !x.foundAt
    requires Here(buf, i, PrintAuthority(a)) && GoodAuthority(a)
    ensures Reads(buf, connect, i + |PrintAuthority(a)|,
                  Served(x, i, |PrintAuthority(a)|, ReqServer, a.userinfo != ""))
  {
    hide Reads, All, IsServerChar, Here, GoodAuthority, PrintHost, PrintAuthority;
    var rest := PrintHost(a.host) + Behind(':', a.port);
    RestIsServer(a);
    AuthorityParts(buf, i, a);
    if a.userinfo == "" {
      ServerRun(buf, connect, i, rest, x);
    } else {
      var k := |a.userinfo| + 1;
      var x1 := Served(x, i, k, ReqServerWithAt, true);
      UserAtRun(buf, connect, i, a.userinfo, x);
      ServerRun(buf, connect, i + k, rest, x1);
    }
  }

  lemma AuthorityParts(buf: string, i: nat, a: Authority)
    requires Here(buf, i, PrintAuthority(a))
    ensures var first, rest := Before(a.userinfo, '@'), PrintHost(a.host) + Behind(':', a.port);
            && PrintAuthority(a) == first + rest && Here(buf, i, first) && Here(buf, i + |first|, rest)
  {
    hide PrintHost;
    var first, rest := Before(a.userinfo, '@'), PrintHost(a.host) + Behind(':', a.port);
    assert PrintAuthority(a) == first + rest;
    hide Here;
    HereBoth(buf, i, first, rest);
  }

  /** The user information and the `@` behind it. */
  lemma UserAtRun(buf: string, connect: bool, i: nat, info: string, x: UrlScan)
    requires Reads(buf, connect, i, x) && InServer(x, i) && info != "" && All(info, IsServerChar)
             && Here(buf, i, info + ['@'])
    ensures Reads(buf, connect, i + |info| + 1, Served(x, i, |info| + 1, ReqServerWithAt, true))
  {
    hide Reads, All, IsServerChar;
    HereBoth(buf, i, info, ['@']);
    HereLast(buf, i + |info|, ['@']);
    ServerRun(buf, connect, i, info, x);
    ServerAt(buf, connect, i + |info|, Served(x, i, |info|, ReqServer, false));
  }

  lemma RestIsServer(a: Authority)
    requires GoodAuthority(a)
    ensures var rest := PrintHost(a.host) + Behind(':', a.port); rest != "" && All(rest, IsServerChar)
    ensures All(a.userinfo, IsServerChar)
  {
    match a.host
    case Name(name) =>
    case Address(address, zone) =>
  }

  /** The scan may go on with a path. */
  predicate BeforePath(x: UrlScan, ch: char) {
    || (x.s.ReqSpacesBeforeUrl? && (ch == '/' || ch == '*') && x.last.NoPart?)
    || (x.s.ReqServer? && ch == '/' && x.last.PHost?)
  }

  lemma PathByte(buf: string, connect: bool, i: nat, x: UrlScan)
    requires Reads(buf, connect, i, x) && i < |buf| && IsUrlChar(buf[i])
    requires BeforePath(x, buf[i]) || (x.s.ReqPath? && x.last.PPath? && x.u.path.Slice? && x.u.path.End() == i)
    ensures Reads(buf, connect, i + 1,
                  UrlScan(ReqPath, x.u.(path := Grown(x.u.path, !x.last.PPath?, i)), PPath, x.foundAt))
  {
    ReadByte(buf, connect, i, x);
  }

  lemma {:induction false} PathRun(buf: string, connect: bool, i: nat, s: string, x: UrlScan)
    requires Reads(buf, connect, i, x) && Here(buf, i, s) && s != "" && All(s, IsUrlChar) && BeforePath(x, s[0])
    ensures Reads(buf, connect, i + |s|, UrlScan(ReqPath, x.u.(path := Slice(i, |s|)), PPath, x.foundAt))
    decreases |s|
  {
    hide All, IsUrlChar, Reads;
    var n := |s| - 1;
    HereLast(buf, i, s);
    AllButLast(s, IsUrlChar);
    if n == 0 {
      PathByte(buf, connect, i, x);
    } else {
      PathRun(buf, connect, i, s[..n], x);
      PathByte(buf, connect, i + n, UrlScan(ReqPath, x.u.(path := Slice(i, n)), PPath, x.foundAt));
    }
  }

  predicate BeforeQuery(x: UrlScan) {
    (x.s.ReqServer? && x.last.PHost?) || (x.s.ReqPath? && x.last.PPath?)
  }

  lemma QueryStart(buf: string, connect: bool, i: nat, x: UrlScan)
    requires Reads(buf, connect, i, x) && Here(buf, i, "?") && BeforeQuery(x)
    ensures Reads(buf, connect, i + 1, x.(s := ReqQueryStringStart))
  {
    assert buf[i] == buf[i..i + 1][0] == '?';
    ReadByte(buf, connect, i, x);
  }

  lemma QueryByte(buf: string, connect: bool, i: nat, x: UrlScan)
    requires Reads(buf, connect, i, x) && i < |buf| && IsQueryChar(buf[i])
    requires (x.s.ReqQueryStringStart? && !x.last.PQuery?)
             || (x.s.ReqQueryString? && x.last.PQuery? && x.u.query.Slice? && x.u.query.End() == i)
    ensures Reads(buf, connect, i + 1,
                  UrlScan(ReqQueryString, x.u.(query := Grown(x.u.query, !x.last.PQuery?, i)), PQuery, x.foundAt))
  {
    ReadByte(buf, connect, i, x);
  }

  lemma {:induction false} QueryRun(buf: string, connect: bool, i: nat, s: string, x: UrlScan)
    requires Reads(buf, connect, i, x) && Here(buf, i, "?" + s) && s != "" && All(s, IsQueryChar) && BeforeQuery(x)
    ensures Reads(buf, connect, i + 1 + |s|, UrlScan(ReqQueryString, x.u.(query := Slice(i + 1, |s|)), PQuery,
                                                     x.foundAt))
    decreases |s|
  {
    hide All, IsQueryChar, Reads;
    var n := |s| - 1;
    HereBoth(buf, i, "?", s);
    HereLast(buf, i + 1, s);
    AllButLast(s, IsQueryChar);
    if n == 0 {
      QueryStart(buf, connect, i, x);
      QueryByte(buf, connect, i + 1, x.(s := ReqQueryStringStart));
    } else {
      assert ("?" + s)[..|s|] == "?" + s[..n];
      HereLast(buf, i, "?" + s);
      QueryRun(buf, connect, i, s[..n], x);
      QueryByte(buf, connect, i + 1 + n, UrlScan(ReqQueryString, x.u.(query := Slice(i + 1, n)), PQuery, x.foundAt));
    }
  }

  predicate BeforeFragment(x: UrlScan) {
    (x.s.ReqPath? && x.last.PPath?) || (x.s.ReqQueryString? && x.last.PQuery?)
  }

  lemma FragmentStart(buf: string, connect: bool, i: nat, x: UrlScan)
    requires Reads(buf, connect, i, x) && Here(buf, i, "#") && BeforeFragment(x)
    ensures Reads(buf, connect, i + 1, x.(s := ReqFragmentStart))
  {
    assert buf[i] == buf[i..i + 1][0] == '#';
    ReadByte(buf, connect, i, x);
  }

  lemma FragmentByte(buf: string, connect: bool, i: nat, x: UrlScan)
    requires Reads(buf, connect, i, x) && i < |buf| && IsFragmentChar(buf[i])
    requires (x.s.ReqFragmentStart? && !x.last.PFragment? && buf[i] != '#')
             || (x.s.ReqFragment? && x.last.PFragment? && x.u.fragment.Slice? && x.u.fragment.End() == i)
    ensures Reads(buf, connect, i + 1,
                  UrlScan(ReqFragment, x.u.(fragment := Grown(x.u.fragment, !x.last.PFragment?, i)), PFragment,
                          x.foundAt))
  {
    ReadByte(buf, connect, i, x);
  }

  lemma {:induction false} FragmentRun(buf: string, connect: bool, i: nat, s: string, x: UrlScan)
    requires Reads(buf, connect, i, x) && Here(buf, i, "#" + s) && s != "" && s[0] != '#' && All(s, IsFragmentChar)
    requires BeforeFragment(x)
    ensures Reads(buf, connect, i + 1 + |s|,
                  UrlScan(ReqFragment, x.u.(fragment := Slice(i + 1, |s|)), PFragment, x.foundAt))
    decreases |s|
  {
    hide All, IsFragmentChar, Reads;
    var n := |s| - 1;
    HereBoth(buf, i, "#", s);
    HereLast(buf, i + 1, s);
    AllButLast(s, IsFragmentChar);
    if n == 0 {
      FragmentStart(buf, connect, i, x);
      FragmentByte(buf, connect, i + 1, x.(s := ReqFragmentStart));
    } else {
      assert ("#" + s)[..|s|] == "#" + s[..n];
      HereLast(buf, i, "#" + s);
      FragmentRun(buf, connect, i, s[..n], x);
      FragmentByte(buf, connect, i + 1 + n, UrlScan(ReqFragment, x.u.(fragment := Slice(i + 1, n)), PFragment,
                                                    x.foundAt));
    }
  }

  // ----- the authority automaton -----

  /** The scan of the authority is `y` at position `i`. */
  ghost predicate HostReads(buf: string, y0: HostScan, a: nat, i: nat, y: HostScan) {
    a <= i <= |buf| && HostFold(buf, y0, a, i) == y
  }

  lemma HostByte(buf: string, y0: HostScan, a: nat, i: nat, y: HostScan)
    requires HostReads(buf, y0, a, i, y) && i < |buf|
    ensures HostReads(buf, y0, a, i + 1, HostStep(y, buf[i], i))
  {
  }

  lemma {:induction false} UserinfoRun(buf: string, y0: HostScan, a: nat, s: string)
    requires HostReads(buf, y0, a, a, y0) && y0.s.UserinfoStart? && Here(buf, a, s) && s != "" && All(s, IsUserinfoChar)
    ensures HostReads(buf, y0, a, a + |s|, HostScan(Userinfo, y0.u.(userinfo := Slice(a, |s|))))
    decreases |s|
  {
    hide All, IsUserinfoChar;
    var n := |s| - 1;
    HereLast(buf, a, s);
    AllButLast(s, IsUserinfoChar);
    NotAt(s[n]);
    if n == 0 {
      HostByte(buf, y0, a, a, y0);
    } else {
      UserinfoRun(buf, y0, a, s[..n]);
      HostByte(buf, y0, a, a + n, HostScan(Userinfo, y0.u.(userinfo := Slice(a, n))));
    }
  }

  lemma NotAt(ch: char)
    ensures IsUserinfoChar(ch) ==> ch != '@'
    ensures IsV6Char(ch) || IsZoneChar(ch) ==> ch != ']'
    ensures IsV6Char(ch) ==> ch != '%'
    ensures IsHostChar(ch) ==> ch != '['
  {
  }

  /** The scan before the host. */
  predicate AtHost(y: HostScan, s: HostState) {
    y.s == s && y.u.host.Slice? && y.u.host.len == 0
  }

  lemma {:induction false} NameRun(buf: string, y0: HostScan, a: nat, i: nat, s: string, y: HostScan)
    requires HostReads(buf, y0, a, i, y) && AtHost(y, HostStart) && Here(buf, i, s) && s != "" && All(s, IsHostChar)
    ensures HostReads(buf, y0, a, i + |s|, HostScan(HostName, y.u.(host := Slice(i, |s|))))
    decreases |s|
  {
    hide All, IsHostChar;
    var n := |s| - 1;
    HereLast(buf, i, s);
    AllButLast(s, IsHostChar);
    NotAt(s[n]);
    if n == 0 {
      HostByte(buf, y0, a, i, y);
    } else {
      NameRun(buf, y0, a, i, s[..n], y);
      HostByte(buf, y0, a, i + n, HostScan(HostName, y.u.(host := Slice(i, n))));
    }
  }

  lemma {:induction false} AddressRun(buf: string, y0: HostScan, a: nat, i: nat, s: string, y: HostScan)
    requires HostReads(buf, y0, a, i, y) && AtHost(y, V6Start) && Here(buf, i, s) && s != "" && All(s, IsV6Char)
    ensures HostReads(buf, y0, a, i + |s|, HostScan(V6, y.u.(host := Slice(i, |s|))))
    decreases |s|
  {
    hide All, IsV6Char;
    var n := |s| - 1;
    HereLast(buf, i, s);
    AllButLast(s, IsV6Char);
    NotAt(s[n]);
    if n == 0 {
      HostByte(buf, y0, a, i, y);
    } else {
      AddressRun(buf, y0, a, i, s[..n], y);
      HostByte(buf, y0, a, i + n, HostScan(V6, y.u.(host := Slice(i, n))));
    }
  }

  /** A zone, with the `%` in front of it. */
  lemma {:induction false} ZoneRun(buf: string, y0: HostScan, a: nat, i: nat, s: string, y: HostScan)
    requires HostReads(buf, y0, a, i, y) && y.s.V6? && y.u.host.Slice? && y.u.host.End() == i
    requires Here(buf, i, "%" + s) && s != "" && All(s, IsZoneChar)
    ensures HostReads(buf, y0, a, i + 1 + |s|,
                      HostScan(V6Zone, y.u.(host := Slice(y.u.host.off, y.u.host.len + 1 + |s|))))
    decreases |s|
  {
    hide All, IsZoneChar;
    var n := |s| - 1;
    HereBoth(buf, i, "%", s);
    HereLast(buf, i + 1, s);
    AllButLast(s, IsZoneChar);
    NotAt(s[n]);
    if n == 0 {
      HereLast(buf, i, "%");
      HostByte(buf, y0, a, i, y);
      HostByte(buf, y0, a, i + 1, HostScan(V6ZoneStart, y.u.(host := Slice(y.u.host.off, y.u.host.len + 1))));
    } else {
      assert ("%" + s)[..|s|] == "%" + s[..n];
      HereLast(buf, i, "%" + s);
      ZoneRun(buf, y0, a, i, s[..n], y);
      HostByte(buf, y0, a, i + 1 + n,
               HostScan(V6Zone, y.u.(host := Slice(y.u.host.off, y.u.host.len + 1 + n))));
    }
  }

  lemma {:induction false} PortRun(buf: string, y0: HostScan, a: nat, i: nat, s: string, y: HostScan)
    requires HostReads(buf, y0, a, i, y) && (y.s.HostName? || y.s.V6End?)
    requires Here(buf, i, ":" + s) && s != "" && All(s, IsNum)
    ensures HostReads(buf, y0, a, i + 1 + |s|, HostScan(PortDigits, y.u.(port := Slice(i + 1, |s|))))
    decreases |s|
  {
    hide All;
    var n := |s| - 1;
    HereBoth(buf, i, ":", s);
    HereLast(buf, i + 1, s);
    AllButLast(s, IsNum);
    if n == 0 {
      HereLast(buf, i, ":");
      HostByte(buf, y0, a, i, y);
      HostByte(buf, y0, a, i + 1, HostScan(PortStart, y.u));
    } else {
      assert (":" + s)[..|s|] == ":" + s[..n];
      HereLast(buf, i, ":" + s);
      PortRun(buf, y0, a, i, s[..n], y);
      HostByte(buf, y0, a, i + 1 + n, HostScan(PortDigits, y.u.(port := Slice(i + 1, n))));
    }
  }

  lemma OpenBracket(buf: string, y0: HostScan, a: nat, i: nat, y: HostScan)
    requires HostReads(buf, y0, a, i, y) && y.s.HostStart? && Here(buf, i, "[")
    ensures HostReads(buf, y0, a, i + 1, y.(s := V6Start))
  {
    HereLast(buf, i, "[");
    HostByte(buf, y0, a, i, y);
  }

  lemma CloseBracket(buf: string, y0: HostScan, a: nat, i: nat, y: HostScan)
    requires HostReads(buf, y0, a, i, y) && (y.s.V6? || y.s.V6Zone?) && Here(buf, i, "]")
    ensures HostReads(buf, y0, a, i + 1, y.(s := V6End))
  {
    HereLast(buf, i, "]");
    HostByte(buf, y0, a, i, y);
  }

  /** The address in brackets and its zone. */
  lemma InsideRun(buf: string, y0: HostScan, a: nat, i: nat, h: Host, y: HostScan)
    requires HostReads(buf, y0, a, i, y) && AtHost(y, V6Start) && h.Address? && Here(buf, i, HostText(h)) && GoodHost(h)
    ensures HostReads(buf, y0, a, i + |HostText(h)|,
                      HostScan(if h.zone == "" then V6 else V6Zone, y.u.(host := Slice(i, |HostText(h)|))))
  {
    hide All, HostReads, Here, IsV6Char, IsZoneChar;
    if h.zone == "" {
      assert HostText(h) == h.address;
      AddressRun(buf, y0, a, i, h.address, y);
    } else {
      HereBoth(buf, i, h.address, "%" + h.zone);
      AddressRun(buf, y0, a, i, h.address, y);
      ZoneRun(buf, y0, a, i + |h.address|, h.zone, HostScan(V6, y.u.(host := Slice(i, |h.address|))));
    }
  }

  lemma Bracketed(h: Host)
    requires h.Address?
    ensures PrintHost(h) == "[" + (HostText(h) + "]") && |PrintHost(h)| == |HostText(h)| + 2
  {
  }

  lemma BracketRun(buf: string, y0: HostScan, a: nat, i: nat, h: Host, y: HostScan)
    requires HostReads(buf, y0, a, i, y) && AtHost(y, HostStart) && h.Address? && Here(buf, i, PrintHost(h))
             && GoodHost(h)
    ensures HostReads(buf, y0, a, i + |PrintHost(h)|, HostScan(V6End, y.u.(host := Slice(i + 1, |HostText(h)|))))
  {
    hide All, HostReads, Here, HostText, GoodHost, PrintHost;
    var text := HostText(h);
    Bracketed(h);
    HereBoth(buf, i, "[", text + "]");
    HereBoth(buf, i + 1, text, "]");
    OpenBracket(buf, y0, a, i, y);
    InsideRun(buf, y0, a, i + 1, h, HostScan(V6Start, y.u));
    CloseBracket(buf, y0, a, i + 1 + |text|,
                 HostScan(if h.zone == "" then V6 else V6Zone, y.u.(host := Slice(i + 1, |text|))));
  }

  /** The host slice of a host printed at position `i`. */
  function HostSlice(i: nat, h: Host): Slice {
    Slice(if h.Name? then i else i + 1, |HostText(h)|)
  }

  lemma HostRun(buf: string, y0: HostScan, a: nat, i: nat, h: Host, y: HostScan)
    requires HostReads(buf, y0, a, i, y) && AtHost(y, HostStart) && Here(buf, i, PrintHost(h)) && GoodHost(h)
    ensures HostReads(buf, y0, a, i + |PrintHost(h)|,
                      HostScan(if h.Name? then HostName else V6End, y.u.(host := HostSlice(i, h))))
  {
    hide HostReads, All;
    if h.Name? {
      NameRun(buf, y0, a, i, h.name, y);
    } else {
      BracketRun(buf, y0, a, i, h, y);
    }
  }

  /** The host of a printed authority, and what comes before it. */
  lemma ToHost(buf: string, u0: Fields, i: nat, a: Authority)
    requires Here(buf, i, PrintAuthority(a)) && GoodAuthority(a) && u0.host.Slice? && u0.host.off == i
    requires u0.userinfo.Absent? && u0.port.Absent?
    ensures var h := i + |Before(a.userinfo, '@')|;
            && HostReads(buf, HostBegin(u0, a.userinfo != ""), i, h + |PrintHost(a.host)|, AfterHost(u0, i, a))
            && Here(buf, h + |PrintHost(a.host)|, Behind(':', a.port))
  {
    hide HostReads, GoodHost, PrintHost, HostText, Here, All, PrintAuthority, Before, Behind, Present;
    var y0 := HostBegin(u0, a.userinfo != "");
    AuthorityParts(buf, i, a);
    var h := i + |Before(a.userinfo, '@')|;
    BeforeHost(buf, u0, i, a);
    HereBoth(buf, h, PrintHost(a.host), Behind(':', a.port));
    HostRun(buf, y0, i, h, a.host, HostScan(HostStart, y0.u.(userinfo := Present(i, a.userinfo))));
  }

  /** The scan of an authority behind its host. */
  function AfterHost(u0: Fields, i: nat, a: Authority): HostScan {
    HostScan(if a.host.Name? then HostName else V6End,
             u0.(userinfo := Present(i, a.userinfo), host := HostSlice(i + |Before(a.userinfo, '@')|, a.host)))
  }

  /** Reading a printed authority gives its components. */
  lemma AuthorityParsed(buf: string, u0: Fields, i: nat, a: Authority)
    requires Here(buf, i, PrintAuthority(a)) && GoodAuthority(a) && u0.host == Slice(i, |PrintAuthority(a)|)
    requires u0.userinfo.Absent? && u0.port.Absent?
    ensures var y := HostFold(buf, HostBegin(u0, a.userinfo != ""), i, i + |PrintAuthority(a)|);
            HostComplete(y.s) && y.u.(portValue := 0) == WithAuthority(u0, i, a).(portValue := 0)
            && y.u.portValue == u0.portValue
  {
    hide HostReads, GoodHost, PrintHost, HostText, Here, All;
    var y0, y1 := HostBegin(u0, a.userinfo != ""), AfterHost(u0, i, a);
    var p := i + |Before(a.userinfo, '@')| + |PrintHost(a.host)|;
    ToHost(buf, u0, i, a);
    if a.port != "" {
      assert Behind(':', a.port) == ":" + a.port;
      PortIsNum(a.port);
      PortRun(buf, y0, i, p, a.port, y1);
      FoldIs(buf, y0, i, i + |PrintAuthority(a)|, HostScan(PortDigits, y1.u.(port := Slice(p + 1, |a.port|))));
    } else {
      FoldIs(buf, y0, i, i + |PrintAuthority(a)|, y1);
    }
  }

  lemma FoldIs(buf: string, y0: HostScan, a: nat, i: nat, y: HostScan)
    requires HostReads(buf, y0, a, i, y)
    ensures a <= i <= |buf| && HostFold(buf, y0, a, i) == y
  {
  }

  lemma PortIsNum(s: string)
    requires AreDigits(s)
    ensures All(s, IsNum)
  {
  }

  /** The user information and its `@`. */
  lemma BeforeHost(buf: string, u0: Fields, i: nat, a: Authority)
    requires Here(buf, i, Before(a.userinfo, '@')) && All(a.userinfo, IsUserinfoChar)
    requires u0.userinfo.Absent? && u0.port.Absent? && u0.host.Slice? && u0.host.off == i
    ensures var y0 := HostBegin(u0, a.userinfo != "");
            HostReads(buf, y0, i, i + |Before(a.userinfo, '@')|,
                      HostScan(HostStart, y0.u.(userinfo := Present(i, a.userinfo))))
  {
    hide All;
    var y0 := HostBegin(u0, a.userinfo != "");
    if a.userinfo != "" {
      HereBoth(buf, i, a.userinfo, ['@']);
      HereLast(buf, i + |a.userinfo|, ['@']);
      UserinfoRun(buf, y0, i, a.userinfo);
      HostByte(buf, y0, i, i + |a.userinfo|, HostScan(Userinfo, y0.u.(userinfo := Slice(i, |a.userinfo|))));
    }
  }

  // ----- the whole -----

  /** The scan behind the tail. */
  lemma TailRun(buf: string, connect: bool, i: nat, t: Tail, x: UrlScan) returns (x': UrlScan)
    requires Reads(buf, connect, i, x) && Here(buf, i, PrintTail(t)) && GoodTail(t)
    requires x.u.path.Absent? && x.u.query.Absent? && x.u.fragment.Absent?
    requires if t.path == "" then x.s.ReqServer? && x.last.PHost? && (t.query == "" ==> t.fragment == "")
             else BeforePath(x, t.path[0])
    ensures Reads(buf, connect, i + |PrintTail(t)|, x')
    ensures !x'.s.Dead? && x'.u == WithTail(x.u, i, t) && x'.foundAt == x.foundAt
  {
    hide Reads, All, Here, IsQueryChar, IsFragmentChar;
    var query, fragment := Behind('?', t.query), Behind('#', t.fragment);
    HereBoth(buf, i, t.path + query, fragment);
    HereBoth(buf, i, t.path, query);
    x' := x;
    if t.path != "" {
      PathRun(buf, connect, i, t.path, x);
      x' := UrlScan(ReqPath, x.u.(path := Slice(i, |t.path|)), PPath, x.foundAt);
    }
    var q := i + |t.path|;
    if t.query != "" {
      assert query == "?" + t.query;
      QueryRun(buf, connect, q, t.query, x');
      x' := UrlScan(ReqQueryString, x'.u.(query := Slice(q + 1, |t.query|)), PQuery, x.foundAt);
    }
    var f := q + |query|;
    if t.fragment != "" {
      assert fragment == "#" + t.fragment;
      FragmentRun(buf, connect, f, t.fragment, x');
      x' := UrlScan(ReqFragment, x'.u.(fragment := Slice(f + 1, |t.fragment|)), PFragment, x.foundAt);
    }
  }

  /** The scan of a whole URL in the absolute form. */
  lemma AbsoluteRun(scheme: string, a: Authority, tail: Tail) returns (x: UrlScan)
    requires Good(Absolute(scheme, a, tail))
    ensures UrlFold(Print(Absolute(scheme, a, tail)), false, |Print(Absolute(scheme, a, tail))|) == x && !x.s.Dead?
    ensures x.u == WithTail(NO_FIELDS.(schema := Slice(0, |scheme|), host := Slice(|scheme| + 3, |PrintAuthority(a)|)),
                            |scheme| + 3 + |PrintAuthority(a)|, tail)
    ensures x.foundAt == (a.userinfo != "")
  {
    hide All, Here, Reads, GoodTail, GoodAuthority, PrintAuthority, PrintTail, WithTail;
    var buf := Print(Absolute(scheme, a, tail));
    HereAll(buf);
    var u := NO_FIELDS.(schema := Slice(0, |scheme|));
    var n, m := |scheme| + 3, |PrintAuthority(a)|;
    assert buf == scheme + "://" + PrintAuthority(a) + PrintTail(tail);
    HereBoth(buf, 0, scheme + "://" + PrintAuthority(a), PrintTail(tail));
    HereBoth(buf, 0, scheme + "://", PrintAuthority(a));
    HereBoth(buf, 0, scheme, "://");
    SchemaRun(buf, scheme);
    SchemaEnd(buf, |scheme|, u);
    var x0 := UrlScan(ReqServerStart, u, PSchema, false);
    AuthorityRun(buf, false, n, x0, a);
    TailFits(tail);
    x := TailRun(buf, false, n + m, tail, Served(x0, n, m, ReqServer, a.userinfo != ""));
    ReadsIs(buf, false, x);
  }

  lemma TargetRun(t: Target) returns (x: UrlScan)
    requires Good(t)
    ensures UrlFold(Print(t), t.ForConnect?, |Print(t)|) == x && !x.s.Dead?
    ensures match t
            case Absolute(scheme, authority, tail) =>
              && x.u == WithTail(NO_FIELDS.(schema := Slice(0, |scheme|),
                                            host := Slice(|scheme| + 3, |PrintAuthority(authority)|)),
                                 |scheme| + 3 + |PrintAuthority(authority)|, tail)
              && x.foundAt == (authority.userinfo != "")
            case Origin(tail) => x.u == WithTail(NO_FIELDS, 0, tail)
            case ForConnect(authority) =>
              && x.u == NO_FIELDS.(host := Slice(0, |PrintAuthority(authority)|))
              && x.foundAt == (authority.userinfo != "")
  {
    hide All, Here, Reads, GoodTail, GoodAuthority, PrintAuthority, PrintTail, WithTail;
    var buf := Print(t);
    HereAll(buf);
    match t
    case Absolute(scheme, authority, tail) => x := AbsoluteRun(scheme, authority, tail);
    case Origin(tail) =>
      ReadsStart(buf, false);
      TailFits(tail);
      x := TailRun(buf, false, 0, tail, UrlBegin(false));
      ReadsIs(buf, false, x);
    case ForConnect(authority) =>
      ReadsStart(buf, true);
      AuthorityRun(buf, true, 0, UrlBegin(true), authority);
      x := Served(UrlBegin(true), 0, |buf|, ReqServer, authority.userinfo != "");
      ReadsIs(buf, true, x);
  }

  lemma ReadsStart(buf: string, connect: bool)
    ensures Reads(buf, connect, 0, UrlBegin(connect))
  {
  }

  lemma ReadsIs(buf: string, connect: bool, x: UrlScan)
    requires Reads(buf, connect, |buf|, x)
    ensures UrlFold(buf, connect, |buf|) == x
  {
  }

  lemma TailFits(t: Tail)
    requires GoodTail(t)
    ensures t.path != "" ==> IsUrlChar(t.path[0])
  {
  }

  lemma PortText(buf: string, i: nat, a: Authority)
    requires Here(buf, i, PrintAuthority(a))
    ensures var port := WithAuthority(NO_FIELDS, i, a).port;
            port.End() <= |buf| && (port.Slice? ==> port.Text(buf) == a.port)
  {
    if a.port != "" {
      assert PrintAuthority(a) == Before(a.userinfo, '@') + PrintHost(a.host) + [':'] + a.port;
      HereBoth(buf, i, Before(a.userinfo, '@') + PrintHost(a.host) + [':'], a.port);
    }
  }

  /** The checks behind the scan let a printed URL pass, unless more or less than a host and a port is given to
      CONNECT. */
  lemma CheckPasses(buf: string, connect: bool, u: Fields, a: Authority)
    requires GoodAuthority(a) && u.port.End() <= |buf|
    requires if a.port == "" then u.port.Absent? else u.port.Slice? && u.port.Text(buf) == a.port
    requires connect ==> u.host.Slice? && u.schema.Absent? && u.path.Absent? && u.query.Absent? && u.fragment.Absent?
                         && (u.userinfo.Absent? <==> a.userinfo == "")
    ensures Checked(buf, connect, u) == if connect && (a.userinfo != "" || a.port == "") then Rejected
                                        else Accepted(u.(portValue := Decimal(a.port)))
  {
  }

  /** The result for a live scan with an authority. */
  lemma ParsedWith(buf: string, connect: bool, x: UrlScan, y: HostScan)
    requires x == UrlFold(buf, connect, |buf|) && !x.s.Dead? && x.u.host.Slice?
    requires x.u.host.End() <= |buf| && y == HostScanOf(buf, x) && HostComplete(y.s)
    requires y.u.port.End() <= |buf| && (y.u.port.Slice? ==> AreDigits(y.u.port.Text(buf)))
    ensures Parse(buf, connect) == Checked(buf, connect, y.u)
  {
    hide Checked, HostComplete, UrlStep, HostStep, HostScanOf;
  }

  lemma AbsoluteParses(t: Target)
    requires Good(t) && t.Absolute?
    ensures Parse(Print(t), false) == Accepted(Expected(t))
  {
    hide All, Here, Reads, GoodTail, UrlFold, HostFold, PrintTail, HostComplete, Checked, PrintAuthority, PrintHost,
      GoodHost, Parse;
    var buf := Print(t);
    var x := TargetRun(t);
    HereAll(buf);
    var n := |t.scheme| + 3;
    HereBoth(buf, 0, t.scheme + "://" + PrintAuthority(t.authority), PrintTail(t.tail));
    HereBoth(buf, 0, t.scheme + "://", PrintAuthority(t.authority));
    AuthorityParsed(buf, x.u, n, t.authority);
    PortText(buf, n, t.authority);
    var y := HostScanOf(buf, x);
    CheckPasses(buf, false, y.u, t.authority);
    ParsedWith(buf, false, x, y);
  }

  lemma ConnectParses(t: Target)
    requires Good(t) && t.ForConnect?
    ensures Parse(Print(t), true) == if Unconnectable(t) then Rejected else Accepted(Expected(t))
  {
    hide All, Here, Reads, UrlFold, HostFold, HostComplete, Checked, PrintAuthority, PrintHost, GoodHost, Parse;
    var buf := Print(t);
    var x := TargetRun(t);
    HereAll(buf);
    AuthorityParsed(buf, x.u, 0, t.authority);
    PortText(buf, 0, t.authority);
    var y := HostScanOf(buf, x);
    CheckPasses(buf, true, y.u, t.authority);
    ParsedWith(buf, true, x, y);
  }

  lemma OriginParses(t: Target)
    requires Good(t) && t.Origin?
    ensures Parse(Print(t), false) == Accepted(Expected(t))
  {
    hide All, UrlFold, HostFold, PrintTail, GoodTail;
    var x := TargetRun(t);
  }

  lemma BareFragmentFails(t: Target)
    requires GoodParts(t) && BareFragment(t)
    ensures Parse(Print(t), false).Rejected?
  {
    hide All, Here, UrlFold, HostFold, PrintAuthority, GoodAuthority, GoodTail, Checked;
    var buf := Print(t);
    var front := t.scheme + "://" + PrintAuthority(t.authority);
    var u := NO_FIELDS.(schema := Slice(0, |t.scheme|));
    var x0 := UrlScan(ReqServerStart, u, PSchema, false);
    var n, m := |t.scheme| + 3, |PrintAuthority(t.authority)|;
    HereAll(buf);
    assert PrintTail(t.tail) == "#" + t.tail.fragment;
    HereBoth(buf, 0, front, "#" + t.tail.fragment);
    HereBoth(buf, 0, t.scheme + "://", PrintAuthority(t.authority));
    HereBoth(buf, 0, t.scheme, "://");
    SchemaRun(buf, t.scheme);
    SchemaEnd(buf, |t.scheme|, u);
    AuthorityRun(buf, false, n, x0, t.authority);
    HashFails(buf, n + m, Served(x0, n, m, ReqServer, t.authority.userinfo != ""), t.tail.fragment);
  }

  lemma HashFails(buf: string, i: nat, x: UrlScan, s: string)
    requires Reads(buf, false, i, x) && x.s.ReqServer? && Here(buf, i, "#" + s)
    ensures UrlFold(buf, false, |buf|).s.Dead?
  {
    hide UrlStep, Here, UrlFold;
    HereBoth(buf, i, "#", s);
    HereLast(buf, i, "#");
    HashStep(x, i);
    ReadByte(buf, false, i, x);
    DeadUrl(buf, false, i + 1, |buf|);
  }

  lemma HashStep(x: UrlScan, i: nat)
    requires x.s.ReqServer?
    ensures UrlStep(x, '#', i).s.Dead?
  {
  }

  /** Printing a URL and parsing it gives back its components and the value of its port, unless a fragment
      stands directly behind the authority, or CONNECT is given user information or no port; that the parser does not
      accept. */
  lemma ParserInvertsPrinter(t: Target)
    requires GoodParts(t)
    ensures Parse(Print(t), t.ForConnect?) ==
            if BareFragment(t) || Unconnectable(t) then Rejected else Accepted(Expected(t))
  {
    hide Parse, Print, Expected, GoodParts, BareFragment;
    if BareFragment(t) {
      OnlyAbsolute(t);
      BareFragmentFails(t);
    } else {
      match t
      case Absolute(_, _, _) => AbsoluteParses(t);
      case Origin(_) => OriginParses(t);
      case ForConnect(_) => ConnectParses(t);
    }
  }

  lemma OnlyAbsolute(t: Target)
    requires BareFragment(t)
    ensures t.Absolute?
  {
  }
}
