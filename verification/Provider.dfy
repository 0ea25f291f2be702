/** The provider agent: form bodies become Dubbo frames, Dubbo replies become HTTP replies. */
module Provider {
  import opened HttpTypes
  import opened HttpInvariant
  import opened HttpRun
  import opened HttpStream
  import opened HttpSegments
  import opened HttpNumbers
  import opened HttpHeaders
  import HttpPrinter
  import opened HttpReply
  import opened Dubbo
  import opened Options
  import opened Sockets
  import opened Stretches

  const REQ_BUF: nat := 2048
  const RESP_BUF: nat := 256
  /** `sizeof(resp_buffer)` */
  const OUT_BUF: nat := 128

  // ----- replies -----

  /** The length field of a frame of which at least the header is there. */
  function DataLength(r: string): nat
    requires |r| >= HEADER_LEN
  {
    FromBe32(r[12..16])
  }

  /** The test of `read_from_local_provider`; the sum is taken in 32 bits. */
  predicate Whole(r: string) {
    |r| > HEADER_LEN && |r| >= (HEADER_LEN + DataLength(r)) % TWO_32
  }

  /** A frame that fits the buffer, with at least one byte of data. */
  predicate IsReply(f: string) {
    HEADER_LEN < |f| <= RESP_BUF && |f| == HEADER_LEN + DataLength(f)
  }

  /** Of a reply that arrives in pieces, exactly the whole passes the test. */
  lemma WholeExactly(f: string, k: nat)
    requires IsReply(f) && k <= |f|
    ensures Whole(f[..k]) <==> k == |f|
  {
    if k > HEADER_LEN {
      assert f[..k][12..16] == f[12..16];
    }
  }

  /** A C string: the characters before the first NUL. */
  function UpToNul(s: string): string {
    match Find(s, 0, NUL)
    case None => s
    case Some(n) => s[..n]
  }

  const PRE: string := "HTTP/1.1 200 OK" + CRLF + "Content-Length:"

  /** `%ld` */
  function Signed(n: int): string {
    if n < 0 then "-" + ToDecimal(-n) else ToDecimal(n)
  }

  /** What `_write_to_consumer_agent` composes from the buffer `buf`, of which `n` bytes have been read: the last of
      them gives way to a NUL, and the data is the C string behind the status line. A frame of fewer than 19 bytes has a
      negative length, and its data is whatever the buffer held before; without a NUL it goes on with what is stored
      `behind` the buffer. */
  function Composed(buf: string, n: nat, behind: string): string
    requires HEADER_LEN < n <= |buf| && |buf| >= 18
  {
    PRE + Signed(n - 19) + CRLF + CRLF + UpToNul(buf[n - 1 := NUL][18..] + behind)
  }

  /** The reply for the bytes `r` received. */
  function ReplyFrom(r: string): string
    requires |r| >= 19
  {
    PRE + ToDecimal(|r| - 19) + CRLF + CRLF + UpToNul(r[18..|r| - 1] + [NUL])
  }

  /** The first bytes of a text decide where its first NUL is, if it is among them. */
  lemma UpToNulOf(a: string, b: string)
    requires NUL in a
    ensures UpToNul(a + b) == UpToNul(a)
  {
    var n := Find(a, 0, NUL).value;
    FindIs(a + b, 0, NUL, n);
    assert (a + b)[..n] == a[..n];
  }

  /** If the bytes read are those received, short of the last one, the text composed is the reply for them. */
  lemma ComposedIsReply(buf: string, r: string, behind: string)
    requires 19 <= |r| <= |buf| && buf[..|r| - 1] == r[..|r| - 1]
    ensures Composed(buf, |r|, behind) == ReplyFrom(r)
  {
    hide ToDecimal, UpToNul;
    var n := |r|;
    var cut := buf[n - 1 := NUL];
    assert buf[..n - 1][18..] == buf[18..n - 1] && r[..n - 1][18..] == r[18..n - 1];
    assert cut[18..] + behind == (r[18..n - 1] + [NUL]) + (cut[n..] + behind);
    assert (r[18..n - 1] + [NUL])[n - 19] == NUL;
    UpToNulOf(r[18..n - 1] + [NUL], cut[n..] + behind);
  }

  /** The data of a reply: behind the status line, without the last line end. */
  function ReplyData(r: string): string
    requires |r| >= 19
  {
    r[18..|r| - 1]
  }

  /** A Dubbo reply as a provider writes it: a header that ends with the length, and the value between a status line and
      a line end. */
  function ReplyFrame(head: string, data: string): string
    requires |data| + 3 < TWO_32
  {
    head + Be32(|data| + 3) + ("1\n" + data + "\n")
  }

  /** Its data is that value. */
  lemma ReplyDataIs(head: string, data: string)
    requires |head| == 12 && |data| + 19 <= RESP_BUF
    ensures var f := ReplyFrame(head, data); |f| == 19 + |data| && IsReply(f) && ReplyData(f) == data
  {
    hide Be32, FromBe32;
    Be32RoundTrip(|data| + 3);
    var f := ReplyFrame(head, data);
    assert f[12..16] == Be32(|data| + 3);
    assert f[18..|f| - 1] == data;
  }

  /** The HTTP reply carries exactly the data of the frame. */
  lemma ReplyTranscoded(r: string)
    requires |r| >= 19 && Without(ReplyData(r), NUL)
    ensures ReplyFrom(r) == ReplyText(ReplyData(r))
  {
    hide ToDecimal;
    var d := ReplyData(r);
    FindIs(d + [NUL], 0, NUL, |d|);
    assert (d + [NUL])[..|d|] == d;
    assert PRE + ToDecimal(|d|) + CRLF + CRLF + d == STATUS_LINE + "Content-Length:" + ToDecimal(|d|) + CRLF + CRLF + d;
  }

  function Concat(pieces: seq<string>): string {
    if pieces == [] then "" else Concat(pieces[..|pieces| - 1]) + pieces[|pieces| - 1]
  }

  /** Whether a reply read in these pieces has armed the write-back. */
  predicate Armed(pieces: seq<string>) {
    pieces != [] && (Armed(pieces[..|pieces| - 1]) || Whole(Concat(pieces)))
  }

  /** However a reply is split into reads, the write-back is armed with the last byte, and not before. */
  lemma {:induction false} ArmedExactly(f: string, pieces: seq<string>)
    requires IsReply(f) && Concat(pieces) <= f && forall s :: s in pieces ==> s != ""
    ensures Armed(pieces) <==> Concat(pieces) == f
  {
    hide Whole, IsReply;
    var c := Concat(pieces);
    assert c == f[..|c|];
    WholeExactly(f, |c|);
    if pieces == [] {
      NotEmpty(f);
    } else {
      var before := pieces[..|pieces| - 1];
      assert Concat(before) == f[..|Concat(before)|];
      assert forall s :: s in before ==> s in pieces;
      ArmedExactly(f, before);
    }
  }

  lemma NotEmpty(f: string)
    requires IsReply(f)
    ensures f != ""
  {
  }

  /** A Dubbo reply without NUL bytes reaches a reader of the agent's HTTP text unchanged, in one message. */
  lemma ReplyReachesReader(p: Snapshot, f: string, feeds: seq<Feed>)
    requires IsReply(f) && |f| >= 19 && Without(ReplyData(f), NUL)
    requires HttpPrinter.Awaits(p, false) && forall feed | feed in feeds :: Transparent(feed.h)
    ensures var (p', pos) := Drive(p, ReplyFrom(f), 0, feeds);
            && p'.r.errno == OK && pos <= |ReplyFrom(f)|
            && (pos == |ReplyFrom(f)| ==> Merge(p'.trace) == Merge(p.trace) + ReplyEvents(ReplyData(f), p.r.meth))
            && ((forall feed | feed in feeds :: Ordinary(feed.h)) && Total(feeds) >= |ReplyFrom(f)|
                ==> pos == |ReplyFrom(f)|)
  {
    hide ReplyText, ReplyFrom, Drive, Merge, ReplyEvents, Total, HttpPrinter.Awaits, Transparent, Ordinary;
    ReplyTranscoded(f);
    ReplyDelivered(p, ReplyData(f), feeds);
  }

  /** The value in a provider's reply reaches the reader: it is the body of the one message. */
  lemma ValueReachesReader(p: Snapshot, head: string, data: string, feeds: seq<Feed>)
    requires |head| == 12 && |data| + 19 <= RESP_BUF && Without(data, NUL)
    requires HttpPrinter.Awaits(p, false) && forall feed | feed in feeds :: Transparent(feed.h)
    ensures var text := ReplyFrom(ReplyFrame(head, data));
            var (p', pos) := Drive(p, text, 0, feeds);
            && p'.r.errno == OK && pos <= |text|
            && (pos == |text| ==>
                  Merge(p'.trace)
                  == Merge(p.trace) + [MessageBegin, Data(DataKind.Status, "OK"), Data(Field, "Content-Length"),
                                       Data(Value, ToDecimal(|data|)),
                                       HeadersComplete(p.r.meth, 200, 1, 1, |data|, false, false)]
                     + (if data == "" then [] else [Data(Body, data)]) + [MessageComplete])
            && ((forall feed | feed in feeds :: Ordinary(feed.h)) && Total(feeds) >= |text| ==> pos == |text|)
  {
    hide ReplyFrom, ReplyFrame, Drive, Merge, Total, HttpPrinter.Awaits, Transparent, Ordinary, IsReply, ReplyEvents;
    ReplyDataIs(head, data);
    ReplyReachesReader(p, ReplyFrame(head, data), feeds);
    ReplyEventsAre(Merge(p.trace), data, p.r.meth);
  }

  lemma ReplyEventsAre(log: seq<Event>, data: string, meth: Method)
    ensures log + ReplyEvents(data, meth)
            == log + [MessageBegin, Data(DataKind.Status, "OK"), Data(Field, "Content-Length"),
                      Data(Value, ToDecimal(|data|)), HeadersComplete(meth, 200, 1, 1, |data|, false, false)]
               + (if data == "" then [] else [Data(Body, data)]) + [MessageComplete]
  {
    hide ToDecimal;
    FiveEvents(MessageBegin, Data(DataKind.Status, "OK"), Data(Field, "Content-Length"), Data(Value, ToDecimal(|data|)),
               HeadersComplete(meth, 200, 1, 1, |data|, false, false));
    Regrouped(log, [MessageBegin, Data(DataKind.Status, "OK"), Data(Field, "Content-Length"),
                    Data(Value, ToDecimal(|data|)), HeadersComplete(meth, 200, 1, 1, |data|, false, false)],
              if data == "" then [] else [Data(Body, data)], [MessageComplete]);
  }

  lemma FiveEvents(a: Event, b: Event, c: Event, d: Event, e: Event)
    ensures [a, b] + [c, d] + [e] == [a, b, c, d, e]
  {
  }

  lemma Regrouped(log: seq<Event>, a: seq<Event>, b: seq<Event>, c: seq<Event>)
    ensures log + (a + b + c) == log + a + b + c
  {
  }

  // ----- the connection -----

  class Agent {
    /** `cur_request_id` */
    var nextId: nat

    constructor ()
      ensures nextId == 1
    {
      nextId := 1;
    }
  }

  /** A buffer with `text` written at `at`. */
  function Overwritten(s: string, at: nat, text: string): (s': string)
    requires at + |text| <= |s|
    ensures |s'| == |s|
  {
    s[..at] + text + s[at + |text|..]
  }

  lemma OverwrittenHere(s: string, at: nat, text: string, i: nat, other: string)
    requires at + |text| <= |s|
    ensures Here(Overwritten(s, at, text), at, text)
    ensures Here(s, i, other) && (i + |other| <= at || at + |text| <= i) ==> Here(Overwritten(s, at, text), i, other)
  {
    var s' := Overwritten(s, at, text);
    assert s'[at..at + |text|] == text;
    if Here(s, i, other) && (i + |other| <= at || at + |text| <= i) {
      assert s'[i..i + |other|] == s[i..i + |other|];
    }
  }

  /** Copies a string into a buffer. */
  method Store(buf: array<char>, at: nat, text: string)
    requires at + |text| <= buf.Length
    modifies buf
    ensures buf[..] == Overwritten(old(buf[..]), at, text)
  {
    var i := 0;
    while i < |text|
      invariant 0 <= i <= |text| && buf[..] == old(buf[..at]) + text[..i] + old(buf[at + i..])
    {
      buf[at + i] := text[i];
      i := i + 1;
    }
  }

  const FLAGS: string := [0xda as char, 0xbb as char, 0xc6 as char]
  const ZEROS: string := [NUL, NUL, NUL, NUL, NUL]

  /** The parts of a frame in the buffer. */
  lemma FrameHere(s: string, id: nat, c: Invocation)
    requires id < TWO_32 && |Payload(c)| < TWO_32
    requires Here(s, 0, FLAGS) && Here(s, 3, ZEROS) && Here(s, 8, Be32(id)) && Here(s, 12, Be32(|Payload(c)|))
    requires Here(s, 16, Payload(c))
    ensures Here(s, 0, Frame(id, c))
  {
    hide Payload, Here, Be32;
    var n := |Payload(c)|;
    HereJoin(s, 0, FLAGS, ZEROS);
    HereJoin(s, 0, FLAGS + ZEROS, Be32(id));
    HereJoin(s, 0, FLAGS + ZEROS + Be32(id), Be32(n));
    HereJoin(s, 0, FLAGS + ZEROS + Be32(id) + Be32(n), Payload(c));
    assert FLAGS + ZEROS == MAGIC + HIGH_ID;
  }

  /** The connection to a consumer agent together with its connection to the Dubbo provider. */
  class Connection {
    var open: bool                // fd >= 0
    var processing: bool
    const bufReq: array<char>
    var lenReq: nat
    var nwriteReq: nat
    const bufResp: array<char>
    var nreadResp: nat
    /** The file events that are registered. */
    var providerWritable: bool
    var providerReadable: bool
    var consumerWritable: bool

    ghost var frame: string       // the frame of the request under way
    ghost var sent: string        // what the provider has been sent of it
    ghost var received: string    // what the provider has sent since the last reply

    /** The bytes read from the provider, as the buffer holds them. */
    ghost function Held(): string
      reads `nreadResp, bufResp
      requires nreadResp <= bufResp.Length
    {
      bufResp[..nreadResp]
    }

    ghost predicate Valid()
      reads this, bufReq, bufResp
    {
      && bufReq != bufResp && bufReq.Length == REQ_BUF && bufResp.Length == RESP_BUF
      && bufReq[3..8] == ZEROS
      && nwriteReq <= lenReq <= REQ_BUF && nreadResp <= RESP_BUF && Patched(Held(), received)
      && (open ==>
            && frame == bufReq[..lenReq] && sent == frame[..nwriteReq]
            && (consumerWritable ==> nreadResp > HEADER_LEN)
            && (!processing ==> lenReq == nwriteReq == 0))
    }

    constructor ()
      ensures Valid() && open && !processing && received == "" && fresh(bufReq) && fresh(bufResp)
      ensures !providerWritable && !providerReadable && !consumerWritable
    {
      bufReq := new char[REQ_BUF](i => NUL);
      bufResp := new char[RESP_BUF](i => NUL);
      open, processing, lenReq, nwriteReq, nreadResp := true, false, 0, 0, 0;
      providerWritable, providerReadable, consumerWritable := false, false, false;
      frame, sent, received := "", "", "";
    }

    /** `abort_connection_caa` */
    method Abort()
      requires Valid()
      modifies `open, `providerWritable, `providerReadable, `consumerWritable
      ensures Valid() && !open && !providerWritable && !providerReadable && !consumerWritable
    {
      open := false;
      providerWritable, providerReadable, consumerWritable := false, false, false;
    }

    /** `on_http_body`, for a body in one piece that has the four values and fits the buffer. The frame carries
        the current identifier, which then moves on; a second body is refused while the first is processed. */
    method OnHttpBody(agent: Agent, body: string) returns (rc: int)
      requires Valid() && open && agent.nextId < TWO_32 && Without(body, NUL)
      requires ParseForm(body).Some? && HEADER_LEN + |Payload(ParseForm(body).value)| < REQ_BUF
      modifies `processing, `lenReq, `providerWritable, `providerReadable, `frame, `sent, agent, bufReq
      ensures Valid() && Held() == old(Held()) && open && processing && agent.nextId < TWO_32
      ensures if old(processing) then
                rc == 1 && frame == old(frame) && agent.nextId == old(agent.nextId) && lenReq == old(lenReq)
                && providerWritable == old(providerWritable) && sent == old(sent)
              else
                && rc == 0 && frame == Frame(old(agent.nextId), ParseForm(body).value) && sent == ""
                && agent.nextId == (old(agent.nextId) + 1) % TWO_32 && providerWritable && providerReadable
    {
      hide Payload, Be32, Overwritten, ParseForm, Frame, Patched;
      if processing {
        return 1;
      }
      processing := true;
      var call := ParseForm(body).value;
      var payload := Payload(call);
      ghost var s0 := bufReq[..];
      Store(bufReq, 0, FLAGS);
      Store(bufReq, 8, Be32(agent.nextId));
      Store(bufReq, 16, payload + [NUL]);
      Store(bufReq, 12, Be32(|payload|));
      FrameWritten(s0, bufReq[..], agent.nextId, call);
      lenReq := |payload| + HEADER_LEN;
      agent.nextId := (agent.nextId + 1) % TWO_32;
      frame, sent := bufReq[..lenReq], "";
      providerWritable := true;
      providerReadable := true;
      rc := 0;
    }

    /** `_write_to_local_provider`: what has been sent is always the beginning of the frame. */
    method WriteToProvider(w: Written)
      requires Valid() && (w.Wrote? ==> w.n <= lenReq - nwriteReq)
      modifies `open, `nwriteReq, `providerWritable, `providerReadable, `consumerWritable, `sent
      ensures Valid()
      ensures open == (old(open) && !w.WriteFailed?)
      ensures open ==> frame == old(frame) && sent <= frame
      ensures open && w.Wrote? ==> |sent| == old(|sent|) + w.n && (sent == frame ==> !providerWritable)
      ensures open && w.WriteBlocked? ==> sent == old(sent) && providerWritable == old(providerWritable)
      ensures open && w.Wrote? && sent != frame ==> providerWritable == old(providerWritable)
    {
      if !open {
        providerWritable, providerReadable := false, false;
        return;
      }
      match w
      case Wrote(n) =>
        sent := sent + bufReq[nwriteReq..nwriteReq + n];
        nwriteReq := nwriteReq + n;
        if nwriteReq == lenReq {
          providerWritable := false;
        }
      case WriteBlocked =>
      case WriteFailed => Abort();
    }

    /** `read_from_local_provider`: the write-back is armed as soon as the whole frame is there. */
    method ReadFromProvider(g: Got)
      requires Valid() && (g.GotBytes? ==> 0 < |g.bytes| <= RESP_BUF - nreadResp)
      modifies `open, `nreadResp, `providerWritable, `providerReadable, `consumerWritable, `received, bufResp
      ensures Valid()
      ensures open == (old(open) && (g.GotBytes? || g.ReadBlocked?))
      ensures open ==> received == (if g.GotBytes? then old(received) + g.bytes else old(received))
      ensures open ==> Held() == (if g.GotBytes? then old(Held()) + g.bytes else old(Held()))
      ensures open ==> bufResp[nreadResp..] == old(bufResp[..])[nreadResp..]
      ensures open ==> consumerWritable == (old(consumerWritable) || (g.GotBytes? && Whole(Held())))
    {
      hide Patched;
      if !open {
        providerWritable, providerReadable := false, false;
        return;
      }
      match g
      case GotBytes(bytes) =>
        ghost var before, all := Held(), bufResp[..];
        Store(bufResp, nreadResp, bytes);
        nreadResp := nreadResp + |bytes|;
        PatchedMore(before, received, bytes);
        received := received + bytes;
        assert bufResp[..nreadResp] == before + bytes;
        assert bufResp[nreadResp..] == all[nreadResp..];
        if nreadResp > HEADER_LEN {
          var dataLen := FromBe32(bufResp[12..16]);
          assert bufResp[12..16] == bufResp[..nreadResp][12..16];
          if nreadResp < (HEADER_LEN + dataLen) % TWO_32 {
            return;
          }
          consumerWritable := true;
        }
      case GotEnd => Abort();
      case ReadBlocked =>
      case ReadFailed => Abort();
    }

    /** The text of the reply. */
    method Compose(behind: string) returns (text: string)
      requires Valid() && nreadResp > HEADER_LEN
      modifies bufResp
      ensures Valid() && text == Composed(old(bufResp[..]), nreadResp, behind)
      ensures bufResp[..] == old(bufResp[..])[nreadResp - 1 := NUL]
    {
      hide UpToNul, ToDecimal, Patched;
      ghost var before, req := bufResp[..], bufReq[..];
      PatchedLast(Held(), received);
      bufResp[nreadResp - 1] := NUL;
      assert bufResp[..] == before[nreadResp - 1 := NUL];
      assert Held() == before[..nreadResp][nreadResp - 1 := NUL] && bufReq[..] == req;
      assert bufResp[..][18..] == bufResp[18..];
      text := PRE + Signed(nreadResp - 19) + CRLF + CRLF + UpToNul(bufResp[18..] + behind);
    }

    /** The connection is ready for the next request. */
    method Rearm()
      requires Valid() && open
      modifies `processing, `lenReq, `nwriteReq, `nreadResp, `frame, `sent, `received, `consumerWritable
      ensures Valid() && !processing && !consumerWritable && received == Held() == ""
    {
      consumerWritable := false;
      lenReq, nwriteReq, nreadResp := 0, 0, 0;
      processing := false;
      frame, sent, received := "", "", "";
    }

    lemma ReplyForReceived(behind: string)
      requires Valid() && nreadResp > HEADER_LEN
      ensures |received| == nreadResp
      ensures nreadResp >= 19 && Held()[..nreadResp - 1] == received[..nreadResp - 1] ==>
                Composed(bufResp[..], nreadResp, behind) == ReplyFrom(received)
    {
      hide ReplyFrom, Patched, Composed;
      SameLength(Held(), received);
      if nreadResp >= 19 && Held()[..nreadResp - 1] == received[..nreadResp - 1] {
        assert Held()[..nreadResp - 1] == bufResp[..][..nreadResp - 1];
        ComposedIsReply(bufResp[..], received, behind);
      }
    }

    /** What becomes of the text of a reply. */
    method Sent(w: Written, text: string)
      requires Valid() && open && consumerWritable && (w.Wrote? ==> w.n <= |text|)
      modifies `open, `processing, `lenReq, `nwriteReq, `nreadResp, `frame, `sent, `received
      modifies `providerWritable, `providerReadable, `consumerWritable
      ensures Valid() && open == !w.WriteFailed?
      ensures open ==> providerWritable == old(providerWritable) && providerReadable == old(providerReadable)
      ensures open ==> if w.Wrote? && w.n == |text| then !processing && !consumerWritable && received == Held() == ""
                       else && processing == old(processing) && received == old(received) && consumerWritable
                            && frame == old(frame) && sent == old(sent) && nreadResp == old(nreadResp)
    {
      hide Patched;
      match w
      case Wrote(k) =>
        if k == |text| {
          Rearm();
        }
      case WriteBlocked =>
      case WriteFailed => Abort();
    }

    /** `_write_to_consumer_agent`, for replies that fit the output buffer. After a
        whole write the connection is ready for the next request; after a partial one the next attempt starts the
        reply again. The text is the reply for the bytes received, unless an earlier attempt has overwritten one of
        them by a NUL and more have come since. */
    method WriteToConsumer(w: Written, behind: string) returns (text: string)
      requires Valid() && (open ==> consumerWritable) && (open ==> |Composed(bufResp[..], nreadResp, behind)| < OUT_BUF)
      requires open && w.Wrote? ==> w.n <= |Composed(bufResp[..], nreadResp, behind)|
      modifies `open, `processing, `lenReq, `nwriteReq, `nreadResp, `frame, `sent, `received
      modifies `providerWritable, `providerReadable, `consumerWritable, bufResp
      ensures Valid()
      ensures old(open) ==> text == Composed(old(bufResp[..]), old(nreadResp), behind)
      ensures old(open) && old(nreadResp) >= 19 && old(Held())[..old(nreadResp) - 1]
              == old(received)[..old(nreadResp) - 1] ==>
                text == ReplyFrom(old(received))
      ensures open == (old(open) && !w.WriteFailed?)
      ensures open ==> if w.Wrote? && w.n == |text| then !processing && !consumerWritable && received == Held() == ""
                       else && processing == old(processing) && received == old(received) && consumerWritable
                            && frame == old(frame) && sent == old(sent)
                            && bufResp[..] == old(bufResp[..])[nreadResp - 1 := NUL] && nreadResp == old(nreadResp)
      ensures open ==> providerWritable == old(providerWritable) && providerReadable == old(providerReadable)
    {
      if !open {
        consumerWritable := false;
        return "";
      }
      hide ReplyFrom, Patched, Composed;
      ghost var before, n := bufResp[..], nreadResp;
      ReplyForReceived(behind);
      text := Compose(behind);
      Sent(w, text);
      assert bufResp[..] == before[n - 1 := NUL];
    }
  }

  /** `h` is `r` with some characters overwritten by NUL. */
  ghost predicate Patched(h: string, r: string) {
    |h| == |r| && forall i :: 0 <= i < |h| ==> h[i] == r[i] || h[i] == NUL
  }

  lemma PatchedMore(h: string, r: string, more: string)
    requires Patched(h, r)
    ensures Patched(h + more, r + more)
  {
  }

  lemma PatchedLast(h: string, r: string)
    requires Patched(h, r) && h != ""
    ensures Patched(h[|h| - 1 := NUL], r)
  {
  }

  lemma SameLength(h: string, r: string)
    requires Patched(h, r)
    ensures |h| == |r|
  {
  }

  lemma HereIs(s: string, i: nat, text: string)
    requires i + |text| <= |s| && s[i..i + |text|] == text
    ensures Here(s, i, text)
  {
  }

  /** The buffer after the four stores of `on_http_body`. */
  lemma FrameWritten(s0: string, s: string, id: nat, c: Invocation)
    requires |s0| == REQ_BUF && s0[3..8] == ZEROS && id < TWO_32 && HEADER_LEN + |Payload(c)| < REQ_BUF
    requires s == Overwritten(Overwritten(Overwritten(Overwritten(s0, 0, FLAGS), 8, Be32(id)), 16, Payload(c) + [NUL]),
                              12, Be32(|Payload(c)|))
    ensures |s| == REQ_BUF && s[..HEADER_LEN + |Payload(c)|] == Frame(id, c) && s[3..8] == ZEROS
  {
    hide Payload, Be32, Overwritten, Here;
    HereIs(s0, 3, ZEROS);
    var s1 := Overwritten(s0, 0, FLAGS);
    var s2 := Overwritten(s1, 8, Be32(id));
    var s3 := Overwritten(s2, 16, Payload(c) + [NUL]);
    var n := Be32(|Payload(c)|);
    OverwrittenHere(s0, 0, FLAGS, 3, ZEROS);
    OverwrittenHere(s1, 8, Be32(id), 0, FLAGS);
    OverwrittenHere(s1, 8, Be32(id), 3, ZEROS);
    OverwrittenHere(s2, 16, Payload(c) + [NUL], 0, FLAGS);
    OverwrittenHere(s2, 16, Payload(c) + [NUL], 3, ZEROS);
    OverwrittenHere(s2, 16, Payload(c) + [NUL], 8, Be32(id));
    OverwrittenHere(s3, 12, n, 0, FLAGS);
    OverwrittenHere(s3, 12, n, 3, ZEROS);
    OverwrittenHere(s3, 12, n, 8, Be32(id));
    OverwrittenHere(s3, 12, n, 16, Payload(c) + [NUL]);
    HereBoth(s, 16, Payload(c), [NUL]);
    FrameHere(s, id, c);
    HereMeans(s, 0, Frame(id, c));
    HereMeans(s, 3, ZEROS);
  }
}
