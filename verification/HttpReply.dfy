/** The replies that the provider agent writes are printed messages. */
module HttpReply {
  import opened Bytes
  import opened HttpTypes
  import opened HttpInvariant
  import opened HttpRun
  import opened HttpStream
  import opened HttpSegments
  import opened HttpFeed
  import opened HttpNumbers
  import opened HttpHeaders
  import opened HttpStart
  import opened HttpPrinter

  const STATUS_LINE: string := "HTTP/1.1 200 OK" + CRLF

  /** A reply with the body `data`; there is no space behind the colon. */
  function ReplyText(data: string): string {
    STATUS_LINE + "Content-Length:" + ToDecimal(|data|) + CRLF + CRLF + data
  }

  /** The callbacks such a reply stands for. */
  function ReplyEvents(data: string, meth: Method): seq<Event> {
    [MessageBegin, Data(DataKind.Status, "OK")] + [Data(Field, "Content-Length"), Data(Value, ToDecimal(|data|))]
    + [HeadersComplete(meth, 200, 1, 1, |data|, false, false)]
    + (if data == "" then [] else [Data(Body, data)]) + [MessageComplete]
  }

  /** The same as a message. */
  function Reply(data: string): Message {
    Message(Answering(200, "OK"), [], Whole(data, ""))
  }

  lemma TwoHundred()
    ensures ToDecimal(200) == "200" && ToDecimal(20) == "20" && ToDecimal(2) == "2"
  {
    assert ToDecimal(2) == "2";
    assert ToDecimal(20) == ToDecimal(2) + [DigitChar(0)];
    assert ToDecimal(200) == ToDecimal(20) + [DigitChar(0)];
  }

  lemma StatusLineIs()
    ensures StartLine(Answering(200, "OK"), 1, 1) == STATUS_LINE
  {
    TwoHundred();
    assert Protocol(1, 1) == "HTTP/1.1";
  }

  lemma LengthLineIs(n: nat)
    ensures PrintHeaders([Header("Content-Length", ToDecimal(n), "")]) == "Content-Length:" + ToDecimal(n) + CRLF
  {
    var h := Header("Content-Length", ToDecimal(n), "");
    hide ToDecimal;
    assert PrintHeaders([h]) == PrintHeader(h) + PrintHeaders([h][1..]) && [h][1..] == [];
    assert PrintHeader(h) == "Content-Length:" + ToDecimal(n) + CRLF;
  }

  lemma ReplyHeaders(data: string)
    ensures AllHeaders(Reply(data)) == [Header("Content-Length", ToDecimal(|data|), "")]
  {
    hide ToDecimal;
  }

  /** The text of a reply is that message. */
  lemma ReplyPrinted(data: string)
    ensures Print(Reply(data)) == ReplyText(data)
  {
    hide ToDecimal, StartLine, PrintHeaders, AllHeaders;
    ReplyHeaders(data);
    StatusLineIs();
    LengthLineIs(|data|);
    Glued(STATUS_LINE, "Content-Length:", ToDecimal(|data|), CRLF, data);
  }

  lemma Glued(a: string, b: string, c: string, d: string, e: string)
    ensures a + (b + c + d) + d + e == a + b + c + d + d + e
  {
  }

  lemma ReplyIsGood(data: string)
    requires |data| <= MAX_LENGTH
    ensures Good(Reply(data))
  {
  }

  lemma ReplyMeant(data: string, meth: Method, status: nat)
    ensures Events(Reply(data), meth, status) == ReplyEvents(data, meth)
    ensures !Upgrading(Reply(data)) && LeavesOpen(Reply(data))
  {
    hide ToDecimal;
    var m := Reply(data);
    var h := Header("Content-Length", ToDecimal(|data|), "");
    assert AllHeaders(m) == [h] && [h][1..] == [];
    assert HeaderEvents([h]) == [Data(Field, h.name), Data(Value, h.value)] + HeaderEvents([h][1..]);
    assert HeadEvent(m, meth, status) == HeadersComplete(meth, 200, 1, 1, |data|, false, false);
  }

  /** Reading such a reply. */
  lemma ThroughReply(s: Abs, data: string) returns (s': Abs)
    requires Waits(s.r, false) && |data| <= MAX_LENGTH
    ensures Through(s, ReplyText(data), s') && s'.log == s.log + ReplyEvents(data, s.r.meth) && Waits(s'.r, false)
  {
    hide Through, ToDecimal, Print, Events, Good, Waits, ReplyText, ReplyEvents, Reply, Upgrading, LeavesOpen;
    var m := Reply(data);
    ReplyIs(data);
    ReplyPrinted(data);
    ReplyIsGood(data);
    ReplyMeant(data, s.r.meth, s.r.status);
    LastMessage([m], s.r.meth, s.r.status);
    s' := ThroughMessages(s, [m], false);
  }

  lemma ReplyIs(data: string)
    ensures Reply(data).start.Answering?
  {
  }

  /** However a reply is cut into reads and wherever the callbacks pause, no call fails, and at the end the parser has
      delivered its body and one complete message. Callbacks that do not pause always get there. */
  lemma ReplyDelivered(p: Snapshot, data: string, feeds: seq<Feed>)
    requires Awaits(p, false) && |data| <= MAX_LENGTH
    requires forall f | f in feeds :: Transparent(f.h)
    ensures var (p', pos) := Drive(p, ReplyText(data), 0, feeds);
            && p'.r.errno == OK && pos <= |ReplyText(data)|
            && (pos == |ReplyText(data)| ==> Merge(p'.trace) == Merge(p.trace) + ReplyEvents(data, p.r.meth))
            && ((forall f | f in feeds :: Ordinary(f.h)) && Total(feeds) >= |ReplyText(data)|
                ==> pos == |ReplyText(data)|)
  {
    hide Drive, ARun, Merge, ReplyText, ReplyEvents, RegsOk, Transparent, Ordinary, Total;
    var s' := ThroughReply(AbsOfSnapshot(p), data);
    ReadToTheEnd(p, ReplyText(data), s', feeds);
  }
}
