/** Dubbo frames: what the provider agent makes of a form body, and how a frame is read back. */
module Dubbo {
  import opened Bytes
  import opened HttpTypes
  import opened Options
  import opened Stretches

  const HEADER_LEN: nat := 16
  const NUL: char := 0 as char

  /** Four bytes, the most significant first (`htonl`). */
  function Be32(n: nat): (b: string)
    requires n < TWO_32
    ensures |b| == 4
  {
    [(n / 0x100_0000) as char, (n / 0x1_0000 % 0x100) as char, (n / 0x100 % 0x100) as char, (n % 0x100) as char]
  }

  /** `ntohl` */
  function FromBe32(b: string): nat
    requires |b| == 4
  {
    0x100_0000 * b[0] as nat + 0x1_0000 * b[1] as nat + 0x100 * b[2] as nat + b[3] as nat
  }

  lemma Places(n: nat)
    requires n < TWO_32
    ensures var (a, b, c, d) := (n / 0x100_0000, n / 0x1_0000 % 0x100, n / 0x100 % 0x100, n % 0x100);
            a < 256 && n == 16777216 * a + 65536 * b + 256 * c + d
  {
    var p := n / 0x100;
    var q := p / 0x100;
    assert n / 0x1_0000 == q;
    assert n / 0x100_0000 == q / 0x100;
  }

  lemma Be32RoundTrip(n: nat)
    requires n < TWO_32
    ensures FromBe32(Be32(n)) == n
    ensures var b := Be32(n);
            && (forall i :: 0 <= i < 4 ==> b[i] as nat < 256)
            && n == 16777216 * b[0] as nat + 65536 * b[1] as nat + 256 * b[2] as nat + b[3] as nat
  {
    Places(n);
  }

  // ----- the form body -----

  datatype Invocation = Invocation(service: string, meth: string, argType: string, arg: string)

  /** `strchr`: the place of the first `c` from `i` on. */
  function Find(s: string, i: nat, c: char): (r: Option<nat>)
    requires i <= |s|
    ensures r.Some? ==> i <= r.value < |s| && s[r.value] == c && forall k :: i <= k < r.value ==> s[k] != c
    ensures r.None? ==> forall k :: i <= k < |s| ==> s[k] != c
    decreases |s| - i
  {
    if i == |s| then None else if s[i] == c then Some(i) else Find(s, i + 1, c)
  }

  /** The value that begins behind the next `=` and ends before the next `&`: its two ends. */
  function NextValue(s: string, i: nat): (r: Option<(nat, nat)>)
    requires i <= |s|
    ensures r.Some? ==> i < r.value.0 <= r.value.1 < |s|
  {
    match Find(s, i, '=')
    case None => None
    case Some(a) =>
      match Find(s, a + 1, '&')
      case None => None
      case Some(b) => Some((a + 1, b))
  }

  /** The four values of a body, if the searches for them succeed. */
  function ParseForm(body: string): Option<Invocation> {
    match NextValue(body, 0)
    case None => None
    case Some((a1, b1)) =>
      match NextValue(body, b1)
      case None => None
      case Some((a2, b2)) =>
        match NextValue(body, b2)
        case None => None
        case Some((a3, b3)) =>
          match Find(body, b3, '=')
          case None => None
          case Some(a4) => Some(Invocation(body[a1..b1], body[a2..b2], body[a3..b3], body[a4 + 1..]))
  }

  predicate Without(s: string, c: char) {
    forall k :: 0 <= k < |s| ==> s[k] != c
  }

  function PrintForm(k1: string, k2: string, k3: string, k4: string, c: Invocation): string {
    k1 + "=" + c.service + "&" + (k2 + "=" + c.meth + "&" + (k3 + "=" + c.argType + "&" + (k4 + "=" + c.arg)))
  }

  lemma FindIs(s: string, i: nat, c: char, n: nat)
    requires i <= n < |s| && s[n] == c && forall k :: i <= k < n ==> s[k] != c
    ensures Find(s, i, c) == Some(n)
  {
    hide Find;
  }

  /** The search finds the mark behind a text without it. */
  lemma FindsBehind(s: string, i: nat, text: string, c: char)
    requires Here(s, i, text + [c]) && Without(text, c)
    ensures i <= |s| && Find(s, i, c) == Some(i + |text|)
  {
    HereLast(s, i, text + [c]);
    assert (text + [c])[..|text|] == text;
    forall k | i <= k < i + |text|
      ensures s[k] != c
    {
      assert s[k] == s[i..i + |text|][k - i];
    }
    FindIs(s, i, c, i + |text|);
  }

  lemma ValueFound(s: string, i: nat, key: string, v: string)
    requires Here(s, i, key + "=" + v + "&") && Without(key, '=') && Without(v, '&')
    ensures i <= |s| && NextValue(s, i) == Some((i + |key| + 1, i + |key| + 1 + |v|))
    ensures s[i + |key| + 1..i + |key| + 1 + |v|] == v
  {
    hide Find, Here;
    assert key + "=" + v + "&" == key + ['='] + (v + ['&']);
    HereBoth(s, i, key + ['='], v + ['&']);
    FindsBehind(s, i, key, '=');
    FindsBehind(s, i + |key| + 1, v, '&');
    HereBoth(s, i + |key| + 1, v, ['&']);
    HereMeans(s, i + |key| + 1, v);
  }

  /** The next value and what follows it, in the body of a form. */
  lemma HereValue(s: string, i: nat, key: string, v: string, rest: string)
    requires Here(s, i, key + "=" + v + "&" + rest)
    ensures Here(s, i, key + "=" + v + "&") && Here(s, i + |key| + 1 + |v|, "&") && Here(s, i + |key| + |v| + 2, rest)
  {
    hide Here;
    HereBoth(s, i, key + "=" + v + "&", rest);
    HereBoth(s, i, key + "=" + v, "&");
  }

  /** A value behind the `&` at `i`. */
  lemma NextFound(s: string, i: nat, key: string, v: string)
    requires Here(s, i, "&") && Here(s, i + 1, key + "=" + v + "&") && Without(key, '=') && Without(v, '&')
    ensures i <= |s| && NextValue(s, i) == Some((i + |key| + 2, i + |key| + 2 + |v|))
    ensures s[i + |key| + 2..i + |key| + 2 + |v|] == v
  {
    hide Here, NextValue;
    HereJoin(s, i, "&", key + "=" + v + "&");
    assert "&" + (key + "=" + v + "&") == ("&" + key) + "=" + v + "&";
    assert Without("&" + key, '=');
    ValueFound(s, i, "&" + key, v);
  }

  /** The last value reaches to the end of the body. */
  lemma LastFound(s: string, i: nat, key: string, v: string)
    requires Here(s, i, "&") && Here(s, i + 1, key + "=" + v) && Without(key, '=')
    requires i + 1 + |key| + 1 + |v| == |s|
    ensures Find(s, i, '=') == Some(i + |key| + 1) && s[i + |key| + 2..] == v
  {
    hide Here, Find;
    HereBoth(s, i + 1, key + "=", v);
    HereJoin(s, i, "&", key + "=");
    assert "&" + (key + "=") == ("&" + key) + ['='];
    assert Without("&" + key, '=');
    FindsBehind(s, i, "&" + key, '=');
    HereMeans(s, i + 1 + |key| + 1, v);
  }

  /** A body of the form k1=v1&k2=v2&k3=v3&k4=v4 gives its four values. */
  lemma FormRoundTrip(k1: string, k2: string, k3: string, k4: string, c: Invocation)
    requires Without(k1, '=') && Without(k2, '=') && Without(k3, '=') && Without(k4, '=')
    requires Without(c.service, '&') && Without(c.meth, '&') && Without(c.argType, '&')
    ensures ParseForm(PrintForm(k1, k2, k3, k4, c)) == Some(c)
  {
    hide NextValue, Find, Here;
    var body := PrintForm(k1, k2, k3, k4, c);
    var t4 := k4 + "=" + c.arg;
    var t3 := k3 + "=" + c.argType + "&" + t4;
    var t2 := k2 + "=" + c.meth + "&" + t3;
    var b1 := |k1| + 1 + |c.service|;
    var b2 := b1 + 1 + |k2| + 1 + |c.meth|;
    var b3 := b2 + 1 + |k3| + 1 + |c.argType|;
    HereAll(body);
    HereValue(body, 0, k1, c.service, t2);
    HereValue(body, b1 + 1, k2, c.meth, t3);
    HereValue(body, b2 + 1, k3, c.argType, t4);
    ValueFound(body, 0, k1, c.service);
    NextFound(body, b1, k2, c.meth);
    NextFound(body, b2, k3, c.argType);
    LastFound(body, b3, k4, c.arg);
  }

  // ----- request frames -----

  /** The one encoded type name that is looked up, and what it stands for. */
  const ENCODED_TYPE: string := "Ljava%2Flang%2FString%3B"
  const STRING_TYPE: string := "Ljava/lang/String;"

  /** The comparison takes only as many characters as the type has, so every beginning of the encoded name
      is taken for it. */
  function MapType(t: string): string {
    if t <= ENCODED_TYPE then STRING_TYPE else t
  }

  function Quoted(s: string): string {
    "\"" + s + "\""
  }

  /** What `sprintf` writes behind the header. */
  function Payload(c: Invocation): string {
    Quoted("2.0.1") + "\n" + (Quoted(c.service) + "\n" + ("null" + "\n" + (Quoted(c.meth) + "\n"
    + (Quoted(MapType(c.argType)) + "\n" + (Quoted(c.arg) + "\n" + ("{\"path\":" + Quoted(c.service) + "}" + "\n"))))))
  }

  const MAGIC: string := [0xda as char, 0xbb as char, 0xc6 as char, NUL]
  const HIGH_ID: string := [NUL, NUL, NUL, NUL]

  /** The frame of a request: magic and flags, the identifier, the length of the payload, the payload. */
  function Frame(id: nat, c: Invocation): string
    requires id < TWO_32 && |Payload(c)| < TWO_32
  {
    MAGIC + HIGH_ID + Be32(id) + Be32(|Payload(c)|) + Payload(c)
  }

  // ----- reading a frame back -----

  datatype Decoded = Decoded(id: nat, length: nat, version: string, call: Invocation, path: string)

  function Lines(s: string): seq<string>
    decreases |s|
  {
    match Find(s, 0, '\n')
    case None => []
    case Some(n) => [s[..n]] + Lines(s[n + 1..])
  }

  function Unquoted(s: string): string {
    if |s| >= 2 && s[0] == s[|s| - 1] == '"' then s[1..|s| - 1] else s
  }

  const PATH: string := "{\"path\":"

  /** A reader of frames: the magic number, a request with an answer in fastjson, the 64-bit identifier, length, the
      quoted lines of the payload, and the attachment. */
  function Decode(f: string): Option<Decoded> {
    if |f| < 16 || f[..4] != [0xda as char, 0xbb as char, 0xc6 as char, 0 as char] then None
    else
      var length := FromBe32(f[12..16]);
      var lines := Lines(f[16..]);
      if |f| != HEADER_LEN + length || |lines| != 7 || lines[2] != "null" || !(PATH <= lines[6]) || lines[6] == PATH
      then None
      else Some(Decoded(FromBe32(f[4..8]) * TWO_32 + FromBe32(f[8..12]), length, Unquoted(lines[0]),
                        Invocation(Unquoted(lines[1]), Unquoted(lines[3]), Unquoted(lines[4]), Unquoted(lines[5])),
                        Unquoted(lines[6][|PATH|..|lines[6]| - 1])))
  }

  lemma FirstLine(line: string, rest: string)
    requires Without(line, '\n')
    ensures Lines(line + "\n" + rest) == [line] + Lines(rest)
  {
    var s := line + "\n" + rest;
    FindIs(s, 0, '\n', |line|);
    assert s[..|line|] == line && s[|line| + 1..] == rest;
  }

  lemma QuotedLine(s: string)
    requires Without(s, '\n')
    ensures Without(Quoted(s), '\n') && Unquoted(Quoted(s)) == s
  {
  }

  predicate OneLine(c: Invocation) {
    Without(c.service, '\n') && Without(c.meth, '\n') && Without(c.argType, '\n') && Without(c.arg, '\n')
  }

  lemma PayloadLines(c: Invocation)
    requires OneLine(c)
    ensures Lines(Payload(c)) == [Quoted("2.0.1"), Quoted(c.service), "null", Quoted(c.meth),
                                  Quoted(MapType(c.argType)),
                                  Quoted(c.arg), "{\"path\":" + Quoted(c.service) + "}"]
  {
    hide Lines, Quoted, MapType;
    var l7 := "{\"path\":" + Quoted(c.service) + "}";
    var r6 := l7 + "\n";
    var r5 := Quoted(c.arg) + "\n" + r6;
    var r4 := Quoted(MapType(c.argType)) + "\n" + r5;
    var r3 := Quoted(c.meth) + "\n" + r4;
    var r2 := "null" + "\n" + r3;
    var r1 := Quoted(c.service) + "\n" + r2;
    QuotedLine("2.0.1");
    QuotedLine(c.service);
    QuotedLine(c.meth);
    MapTypeLine(c.argType);
    QuotedLine(MapType(c.argType));
    QuotedLine(c.arg);
    FirstLine(l7, "");
    NoLines();
    assert l7 + "\n" + "" == r6;
    FirstLine(Quoted(c.arg), r6);
    FirstLine(Quoted(MapType(c.argType)), r5);
    FirstLine(Quoted(c.meth), r4);
    FirstLine("null", r3);
    FirstLine(Quoted(c.service), r2);
    FirstLine(Quoted("2.0.1"), r1);
  }

  lemma NoLines()
    ensures Lines("") == []
  {
  }

  lemma MapTypeIs(t: string)
    ensures MapType(t) == if t <= "Ljava%2Flang%2FString%3B" then "Ljava/lang/String;" else t
  {
  }

  lemma MapTypeLine(t: string)
    requires Without(t, '\n')
    ensures Without(MapType(t), '\n')
  {
  }

  lemma PathRead(service: string)
    ensures var l := "{\"path\":" + Quoted(service) + "}";
            PATH <= l && l != PATH && Unquoted(l[|PATH|..|l| - 1]) == service
  {
    var l := "{\"path\":" + Quoted(service) + "}";
    assert l[|PATH|..|l| - 1] == Quoted(service);
  }

  /** What percent-encoding stands for (section 2.1 of RFC 3986). */
  function PercentDecoded(s: string): string {
    if |s| >= 3 && s[0] == '%' && IsHex(s[1]) && IsHex(s[2])
    then [(16 * Unhex(s[1]) + Unhex(s[2])) as char] + PercentDecoded(s[3..])
    else if s == "" then "" else [s[0]] + PercentDecoded(s[1..])
  }

  lemma {:induction false} Literally(text: string, rest: string)
    requires Without(text, '%')
    ensures PercentDecoded(text + rest) == text + PercentDecoded(rest)
  {
    if text == "" {
      assert text + rest == rest;
    } else {
      var s := text + rest;
      assert s != "" && s[0] == text[0] != '%' && s[1..] == text[1..] + rest && [text[0]] + text[1..] == text;
      Literally(text[1..], rest);
    }
  }

  lemma Escaped(a: char, b: char, rest: string)
    requires IsHex(a) && IsHex(b)
    ensures PercentDecoded(['%', a, b] + rest) == [(16 * Unhex(a) + Unhex(b)) as char] + PercentDecoded(rest)
  {
    var s := ['%', a, b] + rest;
    assert s[3..] == rest && |s| >= 3 && s[0] == '%' && s[1] == a && s[2] == b;
  }

  lemma NothingDecoded()
    ensures PercentDecoded("") == ""
  {
  }

  /** The name that is looked up decodes to the name that replaces it. */
  lemma TypeNameDecoded()
    ensures PercentDecoded("Ljava%2Flang%2FString%3B") == "Ljava/lang/String;"
  {
    hide PercentDecoded;
    var t3 := ['%', '3', 'B'] + "";
    var t2 := ['%', '2', 'F'] + ("String" + t3);
    var t1 := ['%', '2', 'F'] + ("lang" + t2);
    NothingDecoded();
    Escaped('3', 'B', "");
    Literally("String", t3);
    Escaped('2', 'F', "String" + t3);
    Literally("lang", t2);
    Escaped('2', 'F', "lang" + t2);
    Literally("Ljava", t1);
    assert "Ljava" + t1 == "Ljava%2Flang%2FString%3B";
  }

  /** A frame reads back as the identifier, the exact length and the four values; the type is replaced if it is the
      encoded name, or a beginning of it, and is as it was otherwise. */
  lemma FrameRoundTrip(id: nat, c: Invocation)
    requires id < TWO_32 && |Payload(c)| < TWO_32 && OneLine(c)
    ensures Decode(Frame(id, c)) ==
            Some(Decoded(id, |Payload(c)|, "2.0.1",
                         Invocation(c.service, c.meth,
                                    if c.argType <= "Ljava%2Flang%2FString%3B" then "Ljava/lang/String;" else c.argType,
                                    c.arg),
                         c.service))
    ensures |Frame(id, c)| == HEADER_LEN + |Payload(c)|
  {
    hide Payload, Lines, MapType, Be32, FromBe32, Quoted, Unquoted;
    var f := Frame(id, c);
    var n := |Payload(c)|;
    assert f[..4] == MAGIC && f[4..8] == HIGH_ID && f[8..12] == Be32(id) && f[12..16] == Be32(n)
           && f[16..] == Payload(c);
    Be32RoundTrip(id);
    Be32RoundTrip(n);
    HighIdIsZero();
    PayloadLines(c);
    PathRead(c.service);
    MapTypeIs(c.argType);
    QuotedLine("2.0.1");
    QuotedLine(c.service);
    QuotedLine(c.meth);
    MapTypeLine(c.argType);
    QuotedLine(MapType(c.argType));
    QuotedLine(c.arg);
  }

  lemma HighIdIsZero()
    ensures FromBe32(HIGH_ID) == 0
  {
  }

  /** From the form body to the values a provider reads. */
  lemma RequestTranscoded(id: nat, k1: string, k2: string, k3: string, k4: string, c: Invocation)
    requires Without(k1, '=') && Without(k2, '=') && Without(k3, '=') && Without(k4, '=')
    requires Without(c.service, '&') && Without(c.meth, '&') && Without(c.argType, '&') && OneLine(c)
    requires id < TWO_32 && |Payload(c)| < TWO_32
    ensures var parsed := ParseForm(PrintForm(k1, k2, k3, k4, c));
            parsed.Some? && |Payload(parsed.value)| < TWO_32
            && Decode(Frame(id, parsed.value)) ==
               Some(Decoded(id, |Payload(c)|, "2.0.1",
                            Invocation(c.service, c.meth,
                                       if c.argType <= "Ljava%2Flang%2FString%3B" then "Ljava/lang/String;"
                                       else c.argType,
                                       c.arg),
                            c.service))
  {
    hide Payload, Decode, ParseForm, PrintForm;
    FormRoundTrip(k1, k2, k3, k4, c);
    FrameRoundTrip(id, c);
  }
}
