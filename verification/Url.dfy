/** Cutting a URL into its components. */
module Url {
  import opened Bytes
  import opened HttpTypes
  import opened HttpAutomaton
  import opened HttpNumbers

  datatype Slice = Absent | Slice(off: nat, len: nat) {
    function End(): nat {
      if Absent? then 0 else off + len
    }

    function Text(buf: string): string
      requires End() <= |buf|
    {
      if Absent? then "" else buf[off..End()]
    }
  }

  /** `struct http_parser_url`; a component is present iff its bit in `field_set` is set. */
  datatype Fields = Fields(schema: Slice, userinfo: Slice, host: Slice, port: Slice, path: Slice, query: Slice,
                           fragment: Slice, portValue: nat)

  const NO_FIELDS: Fields := Fields(Absent, Absent, Absent, Absent, Absent, Absent, Absent, 0)

  // ----- the authority -----

  datatype HostState =
    | HostDead | UserinfoStart | Userinfo | HostStart | V6Start | HostName | V6 | V6End | V6ZoneStart | V6Zone
    | PortStart | PortDigits

  predicate IsZoneChar(ch: char) {
    IsAlphanum(ch) || ch == '%' || ch == '.' || ch == '-' || ch == '_' || ch == '~'
  }

  predicate IsV6Char(ch: char) {
    IsHex(ch) || ch == ':' || ch == '.'
  }

  /** `http_parse_host_char` */
  function HostChar(s: HostState, ch: char): HostState {
    match s
    case Userinfo => UserinfoChar(ch)
    case UserinfoStart => UserinfoChar(ch)
    case HostStart => if ch == '[' then V6Start else if IsHostChar(ch) then HostName else HostDead
    case HostName => if IsHostChar(ch) then HostName else if ch == ':' then PortStart else HostDead
    case V6End => if ch == ':' then PortStart else HostDead
    case V6 =>
      if ch == ']' then V6End else if IsV6Char(ch) then V6 else if ch == '%' then V6ZoneStart else HostDead
    case V6Start => if IsV6Char(ch) then V6 else HostDead
    case V6Zone => if ch == ']' then V6End else if IsZoneChar(ch) then V6Zone else HostDead
    case V6ZoneStart => if IsZoneChar(ch) then V6Zone else HostDead
    case PortDigits => if IsNum(ch) then PortDigits else HostDead
    case PortStart => if IsNum(ch) then PortDigits else HostDead
    case HostDead => HostDead
  }

  function UserinfoChar(ch: char): HostState {
    if ch == '@' then HostStart else if IsUserinfoChar(ch) then Userinfo else HostDead
  }

  datatype HostScan = HostScan(s: HostState, u: Fields)

  function Grown(sl: Slice, anew: bool, p: nat): Slice {
    if anew || sl.Absent? then Slice(p, 1) else Slice(sl.off, sl.len + 1)
  }

  /** One byte of the authority at position `p`. */
  function HostStep(x: HostScan, ch: char, p: nat): HostScan {
    var s := HostChar(x.s, ch);
    var u := x.u;
    if s.HostName? then HostScan(s, u.(host := Longer(u.host, !x.s.HostName?, p)))
    else if s.V6? then HostScan(s, u.(host := Longer(u.host, !x.s.V6?, p)))
    else if s.V6ZoneStart? || s.V6Zone? then HostScan(s, u.(host := Longer(u.host, false, p)))
    else if s.PortDigits? then HostScan(s, u.(port := Grown(u.port, !x.s.PortDigits?, p)))
    else if s.Userinfo? then HostScan(s, u.(userinfo := Grown(u.userinfo, !x.s.Userinfo?, p)))
    else HostScan(s, u)
  }

  /** The host slice with one byte more; its offset is set at the beginning of the host. */
  function Longer(sl: Slice, anew: bool, p: nat): Slice {
    if sl.Absent? then Slice(p, 1) else Slice(if anew then p else sl.off, sl.len + 1)
  }

  /** The bytes of the authority from `a` up to `k`. */
  function HostFold(buf: string, x: HostScan, a: nat, k: nat): HostScan
    requires a <= k <= |buf|
    decreases k - a
  {
    if k == a then x else HostStep(HostFold(buf, x, a, k - 1), buf[k - 1], k - 1)
  }

  /** The states in which an authority may end. */
  predicate HostComplete(s: HostState) {
    s.HostName? || s.V6End? || s.PortDigits?
  }

  function HostBegin(u: Fields, foundAt: bool): HostScan
    requires u.host.Slice?
  {
    HostScan(if foundAt then UserinfoStart else HostStart, u.(host := Slice(u.host.off, 0)))
  }

  lemma {:induction false} DeadStaysDead(buf: string, x: HostScan, a: nat, k: nat, n: nat)
    requires a <= k <= n <= |buf| && HostFold(buf, x, a, k).s.HostDead?
    ensures HostFold(buf, x, a, n).s.HostDead?
    decreases n - k
  {
    if k < n {
      DeadStaysDead(buf, x, a, k, n - 1);
    }
  }

  /** `http_parse_host` */
  method ParseHost(buf: string, u0: Fields, foundAt: bool) returns (rc: int, u: Fields)
    requires u0.host.Slice? && u0.host.End() <= |buf|
    ensures var x := HostFold(buf, HostBegin(u0, foundAt), u0.host.off, u0.host.End());
            rc in {0, 1} && (rc == 0 <==> HostComplete(x.s)) && (rc == 0 ==> u == x.u)
  {
    var a, b := u0.host.off, u0.host.End();
    u := u0.(host := Slice(a, 0));
    var s := if foundAt then UserinfoStart else HostStart;
    ghost var x0 := HostBegin(u0, foundAt);
    var p := a;
    while p < b
      invariant a <= p <= b && HostScan(s, u) == HostFold(buf, x0, a, p) && u.host.Slice?
    {
      var s' := HostChar(s, buf[p]);
      if s'.HostDead? {
        DeadStaysDead(buf, x0, a, p + 1, b);
        return 1, u;
      }
      match s' {
        case HostName =>
          if !s.HostName? {
            u := u.(host := Slice(p, u.host.len));
          }
          u := u.(host := Slice(u.host.off, u.host.len + 1));
        case V6 =>
          if !s.V6? {
            u := u.(host := Slice(p, u.host.len));
          }
          u := u.(host := Slice(u.host.off, u.host.len + 1));
        case V6ZoneStart => u := u.(host := Slice(u.host.off, u.host.len + 1));
        case V6Zone => u := u.(host := Slice(u.host.off, u.host.len + 1));
        case PortDigits => u := u.(port := Grown(u.port, !s.PortDigits?, p));
        case Userinfo => u := u.(userinfo := Grown(u.userinfo, !s.Userinfo?, p));
        case _ =>
      }
      s := s';
      p := p + 1;
    }
    rc := if HostComplete(s) then 0 else 1;
  }

  // ----- the whole URL -----

  /** The component a state of the URL automaton belongs to; delimiters belong to none. */
  datatype Component = NoPart | PSchema | PHost | PPath | PQuery | PFragment

  function PartOfState(s: State): Component {
    if s.ReqSchema? then PSchema
    else if s.ReqServerWithAt? || s.ReqServer? then PHost
    else if s.ReqPath? then PPath
    else if s.ReqQueryString? then PQuery
    else if s.ReqFragment? then PFragment
    else NoPart
  }

  function Get(u: Fields, f: Component): Slice {
    match f
    case PSchema => u.schema
    case PHost => u.host
    case PPath => u.path
    case PQuery => u.query
    case PFragment => u.fragment
    case NoPart => Absent
  }

  function Put(u: Fields, f: Component, sl: Slice): Fields {
    match f
    case PSchema => u.(schema := sl)
    case PHost => u.(host := sl)
    case PPath => u.(path := sl)
    case PQuery => u.(query := sl)
    case PFragment => u.(fragment := sl)
    case NoPart => u
  }

  datatype UrlScan = UrlScan(s: State, u: Fields, last: Component, foundAt: bool)

  /** One byte of the URL at position `p`. */
  function UrlStep(x: UrlScan, ch: char, p: nat): UrlScan {
    var s := ParseUrlChar(x.s, ch);
    var f := PartOfState(s);
    if f.NoPart? then x.(s := s)
    else UrlScan(s, Put(x.u, f, Grown(Get(x.u, f), f != x.last, p)), f, x.foundAt || s.ReqServerWithAt?)
  }

  function UrlBegin(connect: bool): UrlScan {
    UrlScan(if connect then ReqServerStart else ReqSpacesBeforeUrl, NO_FIELDS, NoPart, false)
  }

  /** The first `k` bytes of the URL. */
  function UrlFold(buf: string, connect: bool, k: nat): UrlScan
    requires k <= |buf|
  {
    if k == 0 then UrlBegin(connect) else UrlStep(UrlFold(buf, connect, k - 1), buf[k - 1], k - 1)
  }

  lemma {:induction false} DeadUrl(buf: string, connect: bool, k: nat, n: nat)
    requires k <= n <= |buf| && UrlFold(buf, connect, k).s.Dead?
    ensures UrlFold(buf, connect, n).s.Dead?
    decreases n - k
  {
    if k < n {
      DeadUrl(buf, connect, k, n - 1);
    }
  }

  /** The authority, once the components are known. */
  function HostScanOf(buf: string, x: UrlScan): HostScan
    requires x.u.host.Slice? && x.u.host.End() <= |buf|
  {
    HostFold(buf, HostBegin(x.u, x.foundAt), x.u.host.off, x.u.host.End())
  }

  const MAX_PORT: nat := 0xffff

  /** The components, if the URL is accepted. */
  datatype Parsed = Rejected | Accepted(u: Fields)

  /** The checks behind the loop; the port is the number its digits stand for. */
  function Checked(buf: string, connect: bool, u: Fields): Parsed
    requires u.port.End() <= |buf| && (u.port.Slice? ==> AreDigits(u.port.Text(buf)))
  {
    if connect && !(u.host.Slice? && u.port.Slice? && u.schema.Absent? && u.path.Absent? && u.query.Absent?
                    && u.fragment.Absent? && u.userinfo.Absent?) then Rejected
    else if u.port.Absent? then Accepted(u.(portValue := 0))
    else if Decimal(u.port.Text(buf)) > MAX_PORT then Rejected
    else Accepted(u.(portValue := Decimal(u.port.Text(buf))))
  }

  // ----- where the components are -----

  function BaseEnd(u: Fields): nat {
    if u.schema.Slice? then u.schema.End() + 3 else 0
  }

  function HostEnd(u: Fields): nat {
    if u.host.Slice? then u.host.End() else BaseEnd(u)
  }

  function PathEnd(u: Fields): nat {
    if u.path.Slice? then u.path.End() else HostEnd(u)
  }

  function QueryEnd(u: Fields): nat {
    if u.query.Slice? then u.query.End() else PathEnd(u)
  }

  /** One component behind another, with the delimiters between them. */
  predicate Placed(u: Fields) {
    && u.port.Absent? && u.userinfo.Absent?
    && (u.schema.Slice? ==> u.schema.off == 0 && u.schema.len > 0)
    && (u.host.Slice? ==> u.host.off == BaseEnd(u) && u.host.len > 0)
    && (u.path.Slice? ==> u.path.off == HostEnd(u) && u.path.len > 0)
    && (u.query.Slice? ==> u.query.off == PathEnd(u) + 1 && u.query.len > 0)
    && (u.fragment.Slice? ==> u.fragment.off > QueryEnd(u) && u.fragment.len > 0)
  }

  /** Every component lies within the first `n` bytes. */
  predicate Within(u: Fields, n: nat) {
    && u.schema.End() <= n && u.userinfo.End() <= n && u.host.End() <= n && u.port.End() <= n
    && u.path.End() <= n && u.query.End() <= n && u.fragment.End() <= n
  }

  /** The scan after `k` bytes. */
  predicate UrlShape(x: UrlScan, k: nat) {
    var u := x.u;
    && Placed(u) && (x.foundAt ==> u.host.Slice?)
    && match x.s
       case Dead => true
       case ReqSpacesBeforeUrl => k == 0 && u == NO_FIELDS && x.last.NoPart?
       case ReqSchema => u == NO_FIELDS.(schema := u.schema) && u.schema.End() == k && x.last.PSchema?
                         && u.schema.Slice?
       case ReqSchemaSlash => u == NO_FIELDS.(schema := u.schema) && u.schema.End() + 1 == k && u.schema.Slice?
                              && x.last.PSchema?
       case ReqSchemaSlashSlash => u == NO_FIELDS.(schema := u.schema) && u.schema.End() + 2 == k && u.schema.Slice?
                                   && x.last.PSchema?
       case ReqServerStart => u == NO_FIELDS.(schema := u.schema) && BaseEnd(u) == k
                              && (x.last.PSchema? || x.last.NoPart?)
       case ReqServer => u == NO_FIELDS.(schema := u.schema, host := u.host) && u.host.Slice? && u.host.End() == k
                         && x.last.PHost?
       case ReqServerWithAt => u == NO_FIELDS.(schema := u.schema, host := u.host) && u.host.Slice?
                               && u.host.End() == k && x.last.PHost?
       case ReqPath => u.path.Slice? && u.path.End() == k && x.last.PPath? && u.query.Absent? && u.fragment.Absent?
       case ReqQueryStringStart => PathEnd(u) + 1 == k && u.query.Absent? && u.fragment.Absent?
                                   && !x.last.PQuery? && !x.last.PFragment?
       case ReqQueryString => u.query.Slice? && u.query.End() == k && x.last.PQuery? && u.fragment.Absent?
       case ReqFragmentStart => QueryEnd(u) < k && u.fragment.Absent? && !x.last.PFragment?
       case ReqFragment => u.fragment.Slice? && u.fragment.End() == k && x.last.PFragment?
       case _ => false
  }

  lemma StartKept(x: UrlScan, ch: char, k: nat)
    requires UrlShape(x, k) && (x.s.ReqSpacesBeforeUrl? || x.s.ReqSchema?)
    ensures UrlShape(UrlStep(x, ch, k), k + 1)
  {
    hide IsAlpha, IsUrlChar, IsUserinfoChar;
  }

  lemma SlashKept(x: UrlScan, ch: char, k: nat)
    requires UrlShape(x, k) && (x.s.ReqSchemaSlash? || x.s.ReqSchemaSlashSlash?)
    ensures UrlShape(UrlStep(x, ch, k), k + 1)
  {
    hide IsAlpha, IsUrlChar, IsUserinfoChar;
  }

  lemma ServerStartKept(x: UrlScan, ch: char, k: nat)
    requires UrlShape(x, k) && x.s.ReqServerStart?
    ensures UrlShape(UrlStep(x, ch, k), k + 1)
  {
    hide IsAlpha, IsUrlChar, IsUserinfoChar;
  }

  lemma ServerKept(x: UrlScan, ch: char, k: nat)
    requires UrlShape(x, k) && (x.s.ReqServer? || x.s.ReqServerWithAt?)
    ensures UrlShape(UrlStep(x, ch, k), k + 1)
  {
    hide IsAlpha, IsUrlChar, IsUserinfoChar;
    if x.s.ReqServer? {
    } else {
    }
  }

  lemma PathKept(x: UrlScan, ch: char, k: nat)
    requires UrlShape(x, k) && (x.s.ReqPath?)
    ensures UrlShape(UrlStep(x, ch, k), k + 1)
  {
    hide IsAlpha, IsUrlChar, IsUserinfoChar;
  }

  lemma QueryStartKept(x: UrlScan, ch: char, k: nat)
    requires UrlShape(x, k) && x.s.ReqQueryStringStart?
    ensures UrlShape(UrlStep(x, ch, k), k + 1)
  {
    EndsBefore(x.u, Slice(k, 1), x.u.fragment);
    hide IsAlpha, IsUrlChar, IsUserinfoChar, BaseEnd, HostEnd, PathEnd;
  }

  lemma QueryKept(x: UrlScan, ch: char, k: nat)
    requires UrlShape(x, k) && x.s.ReqQueryString?
    ensures UrlShape(UrlStep(x, ch, k), k + 1)
  {
    hide IsAlpha, IsUrlChar, IsUserinfoChar;
  }

  lemma EndsBefore(u: Fields, query: Slice, fragment: Slice)
    ensures var u' := u.(query := query, fragment := fragment);
            BaseEnd(u') == BaseEnd(u) && HostEnd(u') == HostEnd(u) && PathEnd(u') == PathEnd(u)
            && (query == u.query ==> QueryEnd(u') == QueryEnd(u))
  {
  }

  lemma FragmentPlaced(u: Fields, u': Fields)
    requires Placed(u) && u' == u.(fragment := u'.fragment)
    requires u'.fragment.Slice? ==> u'.fragment.off > QueryEnd(u) && u'.fragment.len > 0
    ensures Placed(u') && QueryEnd(u') == QueryEnd(u)
  {
  }

  lemma FragmentStartKept(x: UrlScan, ch: char, k: nat)
    requires UrlShape(x, k) && x.s.ReqFragmentStart?
    ensures UrlShape(UrlStep(x, ch, k), k + 1)
  {
    hide IsAlpha, IsUrlChar, IsUserinfoChar, BaseEnd, HostEnd, PathEnd, QueryEnd, Placed;
    var u' := UrlStep(x, ch, k).u;
    FragmentPlaced(x.u, u');
  }

  lemma FragmentKept(x: UrlScan, ch: char, k: nat)
    requires UrlShape(x, k) && x.s.ReqFragment?
    ensures UrlShape(UrlStep(x, ch, k), k + 1)
  {
    hide IsAlpha, IsUrlChar, IsUserinfoChar;
  }

  lemma ShapeKept(x: UrlScan, ch: char, k: nat)
    requires UrlShape(x, k)
    ensures UrlShape(UrlStep(x, ch, k), k + 1)
  {
    hide UrlStep;
    if x.s.ReqSpacesBeforeUrl? || x.s.ReqSchema? {
      StartKept(x, ch, k);
    } else if x.s.ReqSchemaSlash? || x.s.ReqSchemaSlashSlash? {
      SlashKept(x, ch, k);
    } else if x.s.ReqServerStart? {
      ServerStartKept(x, ch, k);
    } else if x.s.ReqServer? || x.s.ReqServerWithAt? {
      ServerKept(x, ch, k);
    } else if x.s.ReqPath? {
      PathKept(x, ch, k);
    } else if x.s.ReqQueryStringStart? {
      QueryStartKept(x, ch, k);
    } else if x.s.ReqQueryString? {
      QueryKept(x, ch, k);
    } else if x.s.ReqFragmentStart? {
      FragmentStartKept(x, ch, k);
    } else if x.s.ReqFragment? {
      FragmentKept(x, ch, k);
    } else {
      DeadKept(x, ch, k);
    }
  }

  lemma DeadKept(x: UrlScan, ch: char, k: nat)
    requires UrlShape(x, k) && x.s.Dead?
    ensures UrlShape(UrlStep(x, ch, k), k + 1)
  {
  }

  lemma {:induction false} UrlShapes(buf: string, connect: bool, k: nat)
    requires k <= |buf|
    ensures UrlShape(UrlFold(buf, connect, k), k)
  {
    hide UrlShape, UrlStep;
    if k == 0 {
      ShapeAtStart(connect);
    } else {
      UrlShapes(buf, connect, k - 1);
      ShapeKept(UrlFold(buf, connect, k - 1), buf[k - 1], k - 1);
    }
  }

  lemma ShapeAtStart(connect: bool)
    ensures UrlShape(UrlBegin(connect), 0)
  {
  }

  /** What the components of a live scan look like. */
  lemma ShapeMeans(x: UrlScan, k: nat)
    requires UrlShape(x, k) && !x.s.Dead?
    ensures Placed(x.u) && Within(x.u, k)
  {
  }

  /** Where the host section begins: behind the user information and its `@`. */
  function Section(a: nat, foundAt: bool, userinfo: Slice): nat {
    if !foundAt then a else if userinfo.Slice? then userinfo.End() + 1 else a + 1
  }

  /** The host ends at `e`, the brackets of an IPv6 address included. */
  predicate HostEndsAt(host: Slice, hs: nat, e: nat) {
    host.Slice? && host.len > 0 && ((host.off == hs && e == host.End()) || (host.off == hs + 1 && e == host.End() + 1))
  }

  predicate AllNum(buf: string, i: nat, k: nat) {
    k <= |buf| && forall j :: i <= j < k ==> IsNum(buf[j])
  }

  /** The scan of an authority that starts at `a`, at position `k`. */
  predicate HostShape(buf: string, u0: Fields, a: nat, foundAt: bool, x: HostScan, k: nat) {
    var u := x.u;
    var hs := Section(a, foundAt, u.userinfo);
    && u == u0.(userinfo := u.userinfo, host := u.host, port := u.port) && a <= k
    && (!x.s.HostDead? ==>
         && (u.userinfo.Slice? ==> foundAt && u.userinfo.off == a && u.userinfo.len > 0)
         && (u.port.Absent? || x.s.PortDigits?)
         && match x.s
            case HostDead => true
            case UserinfoStart => foundAt && k == a && u.userinfo.Absent? && u.host == Slice(a, 0)
            case Userinfo => foundAt && u.userinfo.Slice? && k == u.userinfo.End() && u.host == Slice(a, 0)
            case HostStart => k == hs && u.host == Slice(a, 0)
            case HostName => k > hs && u.host == Slice(hs, k - hs)
            case V6Start => k == hs + 1 && u.host == Slice(a, 0)
            case V6 => k > hs + 1 && u.host == Slice(hs + 1, k - hs - 1)
            case V6ZoneStart => k > hs + 1 && u.host == Slice(hs + 1, k - hs - 1)
            case V6Zone => k > hs + 1 && u.host == Slice(hs + 1, k - hs - 1)
            case V6End => k > hs + 2 && u.host == Slice(hs + 1, k - hs - 2)
            case PortStart => k > 0 && HostEndsAt(u.host, hs, k - 1)
            case PortDigits => u.port.Slice? && u.port.len > 0 && u.port.End() == k && u.port.off > 0
                               && HostEndsAt(u.host, hs, u.port.off - 1) && AllNum(buf, u.port.off, k))
  }

  lemma HostShapeKept(buf: string, u0: Fields, a: nat, foundAt: bool, x: HostScan, k: nat)
    requires HostShape(buf, u0, a, foundAt, x, k) && k < |buf|
    ensures HostShape(buf, u0, a, foundAt, HostStep(x, buf[k], k), k + 1)
  {
    hide IsHostChar, IsUserinfoChar, IsV6Char, IsZoneChar;
    match x.s
    case UserinfoStart =>
    case Userinfo =>
    case HostStart =>
    case HostName =>
    case V6Start =>
    case V6 =>
    case V6ZoneStart =>
    case V6Zone =>
    case V6End =>
    case PortStart =>
    case PortDigits =>
    case HostDead =>
  }

  lemma {:induction false} HostShapes(buf: string, u0: Fields, foundAt: bool, k: nat)
    requires u0.host.Slice? && u0.host.off <= k <= |buf| && u0.port.Absent? && u0.userinfo.Absent?
    ensures HostShape(buf, u0, u0.host.off, foundAt, HostFold(buf, HostBegin(u0, foundAt), u0.host.off, k), k)
    decreases k
  {
    hide HostShape, HostStep;
    var a := u0.host.off;
    if k == a {
      HostShapeAtStart(buf, u0, foundAt);
    } else {
      HostShapes(buf, u0, foundAt, k - 1);
      HostShapeKept(buf, u0, a, foundAt, HostFold(buf, HostBegin(u0, foundAt), a, k - 1), k - 1);
    }
  }

  lemma HostShapeAtStart(buf: string, u0: Fields, foundAt: bool)
    requires u0.host.Slice? && u0.port.Absent? && u0.userinfo.Absent?
    ensures HostShape(buf, u0, u0.host.off, foundAt, HostBegin(u0, foundAt), u0.host.off)
  {
  }

  // ----- the result -----

  /** The authority of a live scan, in its components. */
  lemma AuthorityShape(buf: string, connect: bool)
    requires var x := UrlFold(buf, connect, |buf|); !x.s.Dead? && x.u.host.Slice?
    ensures var x := UrlFold(buf, connect, |buf|);
            && x.u.host.End() <= |buf| && Placed(x.u) && Within(x.u, |buf|)
            && HostShape(buf, x.u, x.u.host.off, x.foundAt, HostScanOf(buf, x), x.u.host.End())
  {
    hide HostShape, HostStep, UrlStep;
    var x := UrlFold(buf, connect, |buf|);
    UrlShapes(buf, connect, |buf|);
    ShapeMeans(x, |buf|);
    HostShapes(buf, x.u, x.foundAt, x.u.host.End());
  }

  lemma PortIsDigits(buf: string, u0: Fields, a: nat, foundAt: bool, x: HostScan, k: nat)
    requires HostShape(buf, u0, a, foundAt, x, k) && k <= |buf| && HostComplete(x.s)
    ensures x.u.port.End() <= |buf| && (x.u.port.Slice? ==> AreDigits(x.u.port.Text(buf)))
  {
  }

  /** What `http_parser_parse_url` answers. */
  function Parse(buf: string, connect: bool): Parsed {
    var x := UrlFold(buf, connect, |buf|);
    if x.s.Dead? || (x.u.schema.Slice? && x.u.host.Absent?) then Rejected
    else if x.u.host.Absent? then
      UrlShapes(buf, connect, |buf|);
      Checked(buf, connect, x.u)
    else
      AuthorityShape(buf, connect);
      var h := HostScanOf(buf, x);
      if !HostComplete(h.s) then Rejected
      else
        PortIsDigits(buf, x.u, x.u.host.off, x.foundAt, h, x.u.host.End());
        Checked(buf, connect, h.u)
  }

  /** The component, if it is there, is not empty and begins at `e` or later. */
  predicate Fits(sl: Slice, e: nat) {
    sl.Slice? ==> sl.off >= e && sl.len > 0
  }

  function Next(sl: Slice, e: nat): nat {
    if sl.Slice? then sl.End() else e
  }

  /** The components follow each other without overlapping, and all lie within `n` bytes. */
  predicate InOrder(u: Fields, n: nat) {
    var e1 := Next(u.schema, 0);
    var e2 := Next(u.userinfo, e1);
    var e3 := Next(u.host, e2);
    var e4 := Next(u.port, e3);
    var e5 := Next(u.path, e4);
    var e6 := Next(u.query, e5);
    && Fits(u.schema, 0) && Fits(u.userinfo, e1) && Fits(u.host, e2) && Fits(u.port, e3) && Fits(u.path, e4)
    && Fits(u.query, e5) && Fits(u.fragment, e6) && Next(u.fragment, e6) <= n
  }

  lemma HostInOrder(buf: string, u0: Fields, a: nat, foundAt: bool, x: HostScan)
    requires Placed(u0) && Within(u0, |buf|) && u0.host.Slice? && a == u0.host.off
    requires HostShape(buf, u0, a, foundAt, x, u0.host.End()) && HostComplete(x.s)
    ensures InOrder(x.u, |buf|) && x.u.host.Slice? && x.u.schema == u0.schema
  {
    HostBeforePort(buf, u0, a, foundAt, x);
    hide HostShape;
  }

  /** The parts of an authority, one behind the other. */
  lemma HostBeforePort(buf: string, u0: Fields, a: nat, foundAt: bool, x: HostScan)
    requires u0.host.Slice? && a == u0.host.off
    requires HostShape(buf, u0, a, foundAt, x, u0.host.End()) && HostComplete(x.s)
    ensures x.u == u0.(userinfo := x.u.userinfo, host := x.u.host, port := x.u.port) && x.u.host.Slice?
    ensures Fits(x.u.userinfo, a) && Fits(x.u.host, Next(x.u.userinfo, a)) && Fits(x.u.port, x.u.host.End())
    ensures Next(x.u.port, x.u.host.End()) <= u0.host.End()
  {
  }

  /** The components of an accepted URL. */
  lemma ComponentsInOrder(buf: string, connect: bool)
    ensures Parse(buf, connect).Accepted? ==>
              var u := Parse(buf, connect).u;
              && InOrder(u, |buf|) && u.port.End() <= |buf|
              && (u.schema.Slice? ==> u.host.Slice?) && (u.port.Slice? || u.userinfo.Slice? ==> u.host.Slice?)
              && u.portValue <= MAX_PORT
              && (if u.port.Slice? then AreDigits(u.port.Text(buf)) && u.portValue == Decimal(u.port.Text(buf))
                  else u.portValue == 0)
              && (connect ==> u.host.Slice? && u.port.Slice? && u.schema.Absent? && u.userinfo.Absent?
                              && u.path.Absent? && u.query.Absent? && u.fragment.Absent?)
  {
    hide UrlStep, HostStep, HostShape, UrlShape;
    var x := UrlFold(buf, connect, |buf|);
    if !x.s.Dead? {
      UrlShapes(buf, connect, |buf|);
      ShapeMeans(x, |buf|);
      if x.u.host.Slice? {
        AuthorityShape(buf, connect);
        var h := HostScanOf(buf, x);
        if HostComplete(h.s) {
          PortIsDigits(buf, x.u, x.u.host.off, x.foundAt, h, x.u.host.End());
          HostInOrder(buf, x.u, x.u.host.off, x.foundAt, h);
        }
      }
    }
  }

  /** `http_parser_parse_url`, for buffers whose offsets fit 16 bits. */
  method ParseUrl(buf: string, connect: bool) returns (rc: int, u: Fields)
    requires |buf| <= 0xffff
    ensures rc in {0, 1} && (rc == 0 <==> Parse(buf, connect).Accepted?)
    ensures rc == 0 ==> u == Parse(buf, connect).u
  {
    hide UrlShape, HostShape, HostStep, Checked, HostComplete, ParseUrlChar, HostScanOf;
    u := NO_FIELDS;
    var s := if connect then ReqServerStart else ReqSpacesBeforeUrl;
    var old_f := NoPart;
    var foundAt := false;
    var p := 0;
    DeadIsRejected(buf, connect);
    hide Parse;
    while p < |buf|
      invariant 0 <= p <= |buf| && UrlScan(s, u, old_f, foundAt) == UrlFold(buf, connect, p) && !s.Dead?
    {
      s := ParseUrlChar(s, buf[p]);
      if s.Dead? {
        DeadUrl(buf, connect, p + 1, |buf|);
        return 1, u;
      }
      var f := PartOfState(s);
      if s.ReqServerWithAt? {
        foundAt := true;
      }
      if !f.NoPart? {
        if f == old_f && Get(u, f).Slice? {
          u := Put(u, f, Slice(Get(u, f).off, Get(u, f).len + 1));
        } else {
          u := Put(u, f, Slice(p, 1));
          old_f := f;
        }
      }
      p := p + 1;
    }
    if u.schema.Slice? && u.host.Absent? {
      return 1, u;
    }
    rc, u := Finish(buf, connect, u, foundAt);
  }

  lemma DeadIsRejected(buf: string, connect: bool)
    ensures var x := UrlFold(buf, connect, |buf|);
            x.s.Dead? || (x.u.schema.Slice? && x.u.host.Absent?) ==> Parse(buf, connect).Rejected?
  {
  }

  /** The part of `http_parser_parse_url` behind the loop. */
  method Finish(buf: string, connect: bool, u0: Fields, foundAt: bool) returns (rc: int, u: Fields)
    requires var x := UrlFold(buf, connect, |buf|); !x.s.Dead? && x.u == u0 && x.foundAt == foundAt
    requires u0.schema.Slice? ==> u0.host.Slice?
    ensures rc in {0, 1} && (rc == 0 <==> Parse(buf, connect).Accepted?)
    ensures rc == 0 ==> u == Parse(buf, connect).u
  {
    hide UrlShape, UrlStep, HostShape, HostStep, Checked;
    UrlShapes(buf, connect, |buf|);
    ShapeMeans(UrlFold(buf, connect, |buf|), |buf|);
    u := u0;
    if u.host.Slice? {
      AuthorityShape(buf, connect);
      rc, u := ParseHost(buf, u, foundAt);
      if rc != 0 {
        return 1, u;
      }
      ghost var x := UrlFold(buf, connect, |buf|);
      PortIsDigits(buf, x.u, x.u.host.off, x.foundAt, HostScanOf(buf, x), x.u.host.End());
    }
    rc, u := CheckUrl(buf, connect, u);
  }

  /** The end of `http_parser_parse_url`: CONNECT wants exactly a host and a port, and the port must fit 16 bits. */
  method CheckUrl(buf: string, connect: bool, u0: Fields) returns (rc: int, u: Fields)
    requires u0.port.End() <= |buf| && (u0.port.Slice? ==> AreDigits(u0.port.Text(buf)))
    ensures rc in {0, 1} && (rc == 0 <==> Checked(buf, connect, u0).Accepted?)
    ensures rc == 0 ==> u == Checked(buf, connect, u0).u
  {
    u := u0.(portValue := 0);
    if connect && !(u.host.Slice? && u.port.Slice? && u.schema.Absent? && u.path.Absent? && u.query.Absent?
                    && u.fragment.Absent? && u.userinfo.Absent?) {
      return 1, u;
    }
    if u.port.Slice? {
      ghost var text := u.port.Text(buf);
      var v := 0;
      var p := u.port.off;
      while p < u.port.End()
        invariant u.port.off <= p <= u.port.End() && v == Decimal(text[..p - u.port.off]) <= MAX_PORT
      {
        ghost var k := p - u.port.off;
        assert text[..k + 1][..k] == text[..k] && text[k] == buf[p];
        v := v * 10;
        v := v + DigitValue(buf[p]);
        if v > MAX_PORT {
          DecimalGrows(text, k + 1);
          return 1, u;
        }
        p := p + 1;
      }
      assert text[..u.port.len] == text;
      u := u.(portValue := v);
    }
    rc := 0;
  }

  lemma {:induction false} DecimalGrows(d: string, k: nat)
    requires AreDigits(d) && k <= |d|
    ensures Decimal(d[..k]) <= Decimal(d)
  {
    if k == |d| {
      assert d[..k] == d;
    } else {
      DecimalGrows(d[..|d| - 1], k);
      assert d[..|d| - 1][..k] == d[..k];
    }
  }
}
