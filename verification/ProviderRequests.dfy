/** From the request of a consumer agent, as it arrives, to the frame for the Dubbo provider. */
module ProviderRequests {
  import opened HttpTypes
  import opened HttpInvariant
  import opened HttpRun
  import opened HttpStream
  import opened HttpSegments
  import opened HttpHeaders
  import opened HttpStart
  import opened HttpPrinter
  import Dubbo
  import opened Options

  /** A form posted to the agent, however its text is cut, gives one body, and the frame made of that body carries the
      values of the form. */
  lemma RequestReachesProvider(p: Snapshot, m: Message, k1: string, k2: string, k3: string, k4: string,
                               c: Dubbo.Invocation,
                               id: nat, feeds: seq<Feed>)
    requires Awaits(p, true) && Good(m) && m.start.Asking? && !Upgrading(m)
    requires m.payload.Whole? && m.payload.body == Dubbo.PrintForm(k1, k2, k3, k4, c)
    requires forall feed | feed in feeds :: Transparent(feed.h)
    requires Dubbo.Without(k1, '=') && Dubbo.Without(k2, '=') && Dubbo.Without(k3, '=') && Dubbo.Without(k4, '=')
    requires Dubbo.Without(c.service, '&') && Dubbo.Without(c.meth, '&') && Dubbo.Without(c.argType, '&')
             && Dubbo.OneLine(c)
    requires id < TWO_32 && |Dubbo.Payload(c)| < TWO_32
    ensures var (p', pos) := Drive(p, Print(m), 0, feeds);
            var body := Dubbo.PrintForm(k1, k2, k3, k4, c);
            && p'.r.errno == OK && pos <= |Print(m)|
            && (pos == |Print(m)| ==>
                  Merge(p'.trace) == Merge(p.trace) + HeadEvents(m, p.r.meth, p.r.status)
                                     + [Data(Body, body), MessageComplete])
            && Dubbo.ParseForm(body).Some? && |Dubbo.Payload(Dubbo.ParseForm(body).value)| < TWO_32
            && Dubbo.Decode(Dubbo.Frame(id, Dubbo.ParseForm(body).value)) ==
               Some(Dubbo.Decoded(id, |Dubbo.Payload(c)|, "2.0.1",
                                  Dubbo.Invocation(c.service, c.meth,
                                                   if c.argType <= "Ljava%2Flang%2FString%3B" then "Ljava/lang/String;"
                                                   else c.argType,
                                                   c.arg),
                                  c.service))
  {
    hide Drive, Merge, Print, HeadEvents, Dubbo.Payload, Dubbo.Decode, Dubbo.ParseForm, Dubbo.PrintForm, Transparent,
      Ordinary, Total, Awaits, Good, Upgrading;
    Dubbo.RequestTranscoded(id, k1, k2, k3, k4, c);
    FormNotEmpty(k1, k2, k3, k4, c);
    LastMessage([m], p.r.meth, p.r.status);
    ParserInvertsPrinter(p, [m], true, feeds);
    OneRequest(Merge(p.trace), m, p.r.meth, p.r.status);
  }

  lemma FormNotEmpty(k1: string, k2: string, k3: string, k4: string, c: Dubbo.Invocation)
    ensures Dubbo.PrintForm(k1, k2, k3, k4, c) != ""
  {
  }

  lemma OneRequest(log: seq<Event>, m: Message, meth: Method, status: nat)
    requires m.payload.Whole? && m.payload.body != "" && !Upgrading(m)
    ensures log + Events(m, meth, status) ==
            log + HeadEvents(m, meth, status) + [Data(Body, m.payload.body), MessageComplete]
  {
    hide HeadEvents;
  }
}
