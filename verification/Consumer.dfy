/** The consumer agent: connections from consumers, connections to provider agents, and the leases between them. */
module Consumer {
  import opened Options
  import opened PoolView
  import opened Sockets
  import B = Balancer

  const REQ_BUF: nat := 2048
  const RESP_BUF: nat := 256

  /** The connection to a consumer: the buffers hold the bytes read, the numbers count the bytes written on. */
  datatype Ca = Ca(open: bool, bufIn: string, nwriteIn: nat, bufOut: string, nwriteOut: nat, apa: Option<nat>,
                   writable: bool)

  /** A connection to a provider agent; `owner` is the connection its file events are registered for. */
  datatype Apa = Apa(open: bool, endpoint: nat, reqStart: int, owner: Option<nat>, writable: bool)

  datatype Endpoint = Endpoint(totalMs: int, numReqs: int, pool: View<nat>)

  /** Where a connection to a provider agent is. */
  datatype Place = Pooled | Leased(ca: nat) | Lost

  /** All bytes that have passed through a connection to a consumer, and whether no buffer was ever reset
      with bytes in it that were still to be sent. */
  datatype Traffic = Traffic(fromConsumer: string, toAgent: string, fromAgent: string, toConsumer: string,
                             halfDuplex: bool)

  /** Bytes from the consumer; the buffer for replies is reset with them. */
  function ReadOn(t: Traffic, bytes: string, ca: Ca): Traffic {
    t.(fromConsumer := t.fromConsumer + bytes, halfDuplex := t.halfDuplex && ca.nwriteOut == |ca.bufOut|)
  }

  /** Bytes from the provider agent; the buffer for requests is reset with them. */
  function ReadBack(t: Traffic, bytes: string, ca: Ca): Traffic {
    t.(fromAgent := t.fromAgent + bytes, halfDuplex := t.halfDuplex && ca.nwriteIn == |ca.bufIn|)
  }

  const CLOSED: Ca := Ca(false, "", 0, "", 0, None, false)
  const NEW: Ca := Ca(true, "", 0, "", 0, None, false)
  const NO_TRAFFIC: Traffic := Traffic("", "", "", "", true)

  /** The pool of consumer connections keeps exactly the ones that are closed. */
  ghost predicate CasOk(pool: View<nat>, cas: seq<Ca>) {
    && Ok(pool) && pool.limit > 0 && Allocated(pool) == pool.limit
    && (forall c :: c in pool.free ==> c < |cas|) && (forall c :: c in pool.out ==> c < |cas|)
    && forall c :: 0 <= c < |cas| ==> (cas[c].open <==> c in pool.out) && (!cas[c].open <==> c in pool.free)
  }

  /** The cursors stay within the buffers. */
  predicate CursorsOk(ca: Ca) {
    ca.nwriteIn <= |ca.bufIn| <= REQ_BUF && ca.nwriteOut <= |ca.bufOut| <= RESP_BUF
  }

  /** The pool of an endpoint keeps what is pooled; the rest is leased or lost. */
  ghost predicate PoolOk(e: nat, pool: View<nat>, apas: seq<Apa>, places: seq<Place>) {
    && Ok(pool) && pool.limit > 0 && Allocated(pool) == pool.limit && |places| == |apas|
    && (forall a :: a in pool.free ==> a < |apas| && apas[a].endpoint == e && places[a].Pooled?)
    && (forall a :: a in pool.out ==> a < |apas| && apas[a].endpoint == e && !places[a].Pooled?)
  }

  /** A connection to a provider agent is pooled, or leased by one open consumer connection, or lost. */
  ghost predicate ApaOk(a: nat, apa: Apa, place: Place, cas: seq<Ca>) {
    match place
    case Pooled => apa.open && apa.owner.None?
    case Leased(c) => apa.open && c < |cas| && cas[c].open && cas[c].apa == Some(a) && apa.owner == Some(c)
    case Lost => !apa.open && apa.owner.None?
  }

  /** An open consumer connection that has a lease is the holder of it. */
  ghost predicate LeaseOk(c: nat, ca: Ca, places: seq<Place>) {
    ca.open && ca.apa.Some? ==> ca.apa.value < |places| && places[ca.apa.value] == Leased(c)
  }

  /** What has been read is what has been sent on and what waits in the buffer, in both directions. */
  predicate Intact(ca: Ca, t: Traffic)
    requires CursorsOk(ca)
  {
    && t.fromConsumer == t.toAgent + ca.bufIn[ca.nwriteIn..]
    && t.fromAgent == t.toConsumer + ca.bufOut[ca.nwriteOut..]
  }

  /** How many bytes from the consumer have been dropped. */
  function MissingIn(ca: Ca, t: Traffic): int {
    |t.fromConsumer| - |t.toAgent| - (|ca.bufIn| - ca.nwriteIn)
  }

  /** How many bytes from the provider agent have been dropped. */
  function MissingOut(ca: Ca, t: Traffic): int {
    |t.fromAgent| - |t.toConsumer| - (|ca.bufOut| - ca.nwriteOut)
  }

  /** Bytes are never added; and none has been dropped exactly if no buffer was ever reset with bytes in it that were
      still to be sent. */
  predicate Conserved(ca: Ca, t: Traffic)
    requires CursorsOk(ca)
  {
    ca.open ==>
      && MissingIn(ca, t) >= 0 && MissingOut(ca, t) >= 0
      && (t.halfDuplex ==> Intact(ca, t))
      && (MissingIn(ca, t) == MissingOut(ca, t) == 0 ==> t.halfDuplex)
  }

  lemma ReadOnConserved(ca: Ca, t: Traffic, bytes: string)
    requires CursorsOk(ca) && Conserved(ca, t) && |bytes| <= REQ_BUF - |ca.bufIn|
    ensures var ca' := ca.(bufIn := ca.bufIn + bytes, bufOut := "", nwriteOut := 0);
            CursorsOk(ca') && Conserved(ca', ReadOn(t, bytes, ca))
  {
    assert ca.bufIn[ca.nwriteIn..] + bytes == (ca.bufIn + bytes)[ca.nwriteIn..];
    assert t.toAgent + ca.bufIn[ca.nwriteIn..] + bytes == t.toAgent + (ca.bufIn[ca.nwriteIn..] + bytes);
  }

  lemma ReadBackConserved(ca: Ca, t: Traffic, bytes: string)
    requires CursorsOk(ca) && Conserved(ca, t) && |bytes| <= RESP_BUF - |ca.bufOut|
    ensures var ca' := ca.(bufOut := ca.bufOut + bytes, bufIn := "", nwriteIn := 0, writable := true);
            CursorsOk(ca') && Conserved(ca', ReadBack(t, bytes, ca))
  {
    assert ca.bufOut[ca.nwriteOut..] + bytes == (ca.bufOut + bytes)[ca.nwriteOut..];
    assert t.toConsumer + ca.bufOut[ca.nwriteOut..] + bytes == t.toConsumer + (ca.bufOut[ca.nwriteOut..] + bytes);
  }

  lemma SentOnConserved(ca: Ca, t: Traffic, n: nat)
    requires CursorsOk(ca) && Conserved(ca, t) && ca.nwriteIn + n <= |ca.bufIn|
    ensures var ca' := ca.(nwriteIn := ca.nwriteIn + n);
            CursorsOk(ca') && Conserved(ca', t.(toAgent := t.toAgent + ca.bufIn[ca.nwriteIn..ca.nwriteIn + n]))
  {
    var chunk := ca.bufIn[ca.nwriteIn..ca.nwriteIn + n];
    assert ca.bufIn[ca.nwriteIn..] == chunk + ca.bufIn[ca.nwriteIn + n..];
    assert t.toAgent + (chunk + ca.bufIn[ca.nwriteIn + n..]) == t.toAgent + chunk + ca.bufIn[ca.nwriteIn + n..];
  }

  lemma SentBackConserved(ca: Ca, t: Traffic, n: nat, writable: bool)
    requires CursorsOk(ca) && Conserved(ca, t) && ca.nwriteOut + n <= |ca.bufOut|
    ensures var ca' := ca.(nwriteOut := ca.nwriteOut + n, writable := writable);
            CursorsOk(ca') && Conserved(ca', t.(toConsumer := t.toConsumer + ca.bufOut[ca.nwriteOut..ca.nwriteOut + n]))
  {
    var chunk := ca.bufOut[ca.nwriteOut..ca.nwriteOut + n];
    assert ca.bufOut[ca.nwriteOut..] == chunk + ca.bufOut[ca.nwriteOut + n..];
    assert t.toConsumer + (chunk + ca.bufOut[ca.nwriteOut + n..]) == t.toConsumer + chunk
           + ca.bufOut[ca.nwriteOut + n..];
  }

  function StatsOf(es: seq<Endpoint>): (s: seq<B.Stats>)
    ensures |s| == |es|
    ensures forall e :: 0 <= e < |es| ==> s[e] == B.Stats(es[e].totalMs, es[e].numReqs, |es[e].pool.out|)
  {
    if es == [] then []
    else
      var n := |es| - 1;
      StatsOf(es[..n]) + [B.Stats(es[n].totalMs, es[n].numReqs, |es[n].pool.out|)]
  }

  /** All connections and pools at one moment. */
  datatype World = World(endpoints: seq<Endpoint>, caPool: View<nat>, cas: seq<Ca>, apas: seq<Apa>, places: seq<Place>)

  /** A connection to a provider agent belongs to the pool of its endpoint. */
  ghost predicate HomeOk(a: nat, w: World)
    requires |w.places| == |w.apas|
  {
    a < |w.apas| ==>
      && w.apas[a].endpoint < |w.endpoints| && ApaOk(a, w.apas[a], w.places[a], w.cas)
      && (a in w.endpoints[w.apas[a].endpoint].pool.free <==> w.places[a].Pooled?)
      && (a in w.endpoints[w.apas[a].endpoint].pool.out <==> !w.places[a].Pooled?)
  }

  ghost predicate EndpointOk(e: nat, w: World) {
    e < |w.endpoints| ==> PoolOk(e, w.endpoints[e].pool, w.apas, w.places) && w.endpoints[e].numReqs >= 1
  }

  /** Every connection to a provider agent is in its pool, leased by exactly one consumer connection, or lost. */
  ghost predicate LeasesOk(w: World) {
    && w.endpoints != [] && |w.places| == |w.apas|
    && CasOk(w.caPool, w.cas)
    && (forall e: nat :: EndpointOk(e, w))
    && (forall a: nat :: HomeOk(a, w))
    && (forall c: nat :: c < |w.cas| ==> LeaseOk(c, w.cas[c], w.places))
  }

  // ----- what the handlers do to the leases -----

  /** A change of buffers and cursors. */
  function WithCa(w: World, c: nat, ca: Ca): World
    requires c < |w.cas|
  {
    w.(cas := w.cas[c := ca])
  }

  lemma SameLease(w: World, c: nat, ca: Ca)
    requires LeasesOk(w) && c < |w.cas| && ca.open == w.cas[c].open && ca.apa == w.cas[c].apa
    ensures LeasesOk(WithCa(w, c, ca))
  {
    var w' := WithCa(w, c, ca);
    hide Ok, PoolOk;
    forall a: nat
      ensures HomeOk(a, w')
    {
      assert HomeOk(a, w);
    }
    forall e: nat
      ensures EndpointOk(e, w')
    {
      assert EndpointOk(e, w);
    }
  }

  /** A change in the registration or the clock of a leased connection. */
  function WithApa(w: World, a: nat, apa: Apa): World
    requires a < |w.apas|
  {
    w.(apas := w.apas[a := apa])
  }

  lemma SameHolder(w: World, a: nat, apa: Apa)
    requires LeasesOk(w) && a < |w.apas|
    requires apa.open == w.apas[a].open && apa.endpoint == w.apas[a].endpoint && apa.owner == w.apas[a].owner
    ensures LeasesOk(WithApa(w, a, apa))
  {
    var w' := WithApa(w, a, apa);
    hide Ok, CasOk;
    forall b: nat
      ensures HomeOk(b, w')
    {
      assert HomeOk(b, w);
    }
    forall e: nat
      ensures EndpointOk(e, w')
    {
      assert EndpointOk(e, w);
    }
  }

  /** The statistics of an endpoint. */
  function WithStats(w: World, e: nat, totalMs: int, numReqs: int): World
    requires e < |w.endpoints|
  {
    w.(endpoints := w.endpoints[e := w.endpoints[e].(totalMs := totalMs, numReqs := numReqs)])
  }

  lemma SamePools(w: World, e: nat, totalMs: int, numReqs: int)
    requires LeasesOk(w) && e < |w.endpoints| && numReqs >= 1
    ensures LeasesOk(WithStats(w, e, totalMs, numReqs))
  {
    var w' := WithStats(w, e, totalMs, numReqs);
    hide Ok, CasOk, PoolOk, ApaOk;
    forall b: nat
      ensures HomeOk(b, w')
    {
      assert HomeOk(b, w);
    }
    forall d: nat
      ensures EndpointOk(d, w')
    {
      assert EndpointOk(d, w);
      assert EndpointOk(e, w);
    }
  }

  /** Taking from and giving back to a pool that has all its elements. */
  lemma TakenFrom(v: View<nat>)
    requires Ok(v) && v.limit > 0 && Allocated(v) == v.limit && v.free != []
    ensures var v' := PoolView.Get(v, NoMemory).0;
            && Ok(v') && v'.limit == v.limit && Allocated(v') == v.limit
            && v'.out == v.out + {v.free[0]} && v.free == [v.free[0]] + v'.free && v.free[0] !in v'.free
  {
    hide Ok;
    GetOk(v, NoMemory);
    StepOk(v, Take(NoMemory));
  }

  lemma PoolKeepsSize(v: View<nat>)
    ensures PoolView.Get(v, NoMemory).0.limit == v.limit
    ensures v.free != [] ==> PoolView.Get(v, NoMemory).1.Some?
  {
  }

  lemma TopOfPool(v: View<nat>)
    requires v.free != []
    ensures PoolView.Get(v, NoMemory).1 == Some(v.free[0])
  {
  }

  lemma GivenTo(v: View<nat>, x: nat)
    requires Ok(v) && v.limit > 0 && Allocated(v) == v.limit && x in v.out
    ensures var v' := PoolView.Return(v, x);
            && Ok(v') && v'.limit == v.limit && Allocated(v') == v.limit
            && v'.out == v.out - {x} && v'.free == [x] + v.free
  {
    ReturnOk(v, x);
  }

  /** The connection `a` is taken from the pool of `e` and leased to `c`. */
  function Lent(w: World, c: nat, e: nat, a: nat): World
    requires c < |w.cas| && e < |w.endpoints| && a < |w.apas| == |w.places|
  {
    World(w.endpoints[e := w.endpoints[e].(pool := PoolView.Get(w.endpoints[e].pool, NoMemory).0)], w.caPool,
          w.cas[c := w.cas[c].(apa := Some(a))],
          w.apas[a := w.apas[a].(owner := Some(c), writable := true)],
          w.places[a := Leased(c)])
  }

  /** A change to a connection of another endpoint. */
  lemma OtherPool(d: nat, v: View<nat>, apas: seq<Apa>, places: seq<Place>, a: nat, apa: Apa, place: Place)
    requires PoolOk(d, v, apas, places) && a < |apas| && apas[a].endpoint != d && apa.endpoint == apas[a].endpoint
    ensures PoolOk(d, v, apas[a := apa], places[a := place])
  {
    hide Ok;
  }

  lemma LendingPool(e: nat, v: View<nat>, v': View<nat>, apas: seq<Apa>, places: seq<Place>, a: nat, apa: Apa,
                    place: Place)
    requires PoolOk(e, v, apas, places) && a < |apas| && apa.endpoint == e && !place.Pooled?
    requires Ok(v') && v'.limit == v.limit && Allocated(v') == v'.limit
    requires v'.out == v.out + {a} && v.free == [a] + v'.free && a !in v'.free
    ensures PoolOk(e, v', apas[a := apa], places[a := place])
  {
    hide Ok;
    assert forall x :: x in v'.free ==> x in v.free;
  }

  lemma LentOk(w: World, c: nat, e: nat, a: nat)
    requires LeasesOk(w) && c < |w.cas| && w.cas[c].open && w.cas[c].apa.None? && e < |w.endpoints|
    requires PoolView.Get(w.endpoints[e].pool, NoMemory).1 == Some(a)
    ensures a < |w.apas| && w.places[a].Pooled? && w.apas[a].endpoint == e && LeasesOk(Lent(w, c, e, a))
  {
    var pool := w.endpoints[e].pool;
    assert EndpointOk(e, w);
    assert a in pool.free;
    assert HomeOk(a, w);
    TakenFrom(pool);
    var w' := Lent(w, c, e, a);
    hide Ok, PoolOk;
    forall b: nat
      ensures HomeOk(b, w')
    {
      assert HomeOk(b, w);
    }
    forall d: nat
      ensures EndpointOk(d, w')
    {
      assert EndpointOk(d, w);
      if d < |w.endpoints| && d != e {
        OtherPool(d, w.endpoints[d].pool, w.apas, w.places, a, w'.apas[a], w'.places[a]);
      } else if d == e {
        LendingPool(e, pool, w'.endpoints[e].pool, w.apas, w.places, a, w'.apas[a], w'.places[a]);
      }
    }
  }

  /** The lease of `c` is over, and its connection goes back to the pool. */
  function Returned(w: World, c: nat): World
    requires c < |w.cas| && w.cas[c].apa.Some? && w.cas[c].apa.value < |w.apas| == |w.places|
    requires w.apas[w.cas[c].apa.value].endpoint < |w.endpoints|
  {
    var a := w.cas[c].apa.value;
    var e := w.apas[a].endpoint;
    World(w.endpoints[e := w.endpoints[e].(pool := PoolView.Return(w.endpoints[e].pool, a))], w.caPool,
          w.cas[c := w.cas[c].(apa := None)],
          w.apas[a := w.apas[a].(owner := None, writable := false)],
          w.places[a := Pooled])
  }

  /** What is known about the connection that `c` leases. */
  lemma LeaseMeans(w: World, c: nat)
    requires LeasesOk(w) && c < |w.cas| && w.cas[c].open && w.cas[c].apa.Some?
    ensures var a := w.cas[c].apa.value;
            && a < |w.apas| == |w.places| && w.places[a] == Leased(c) && w.apas[a].open && w.apas[a].owner == Some(c)
            && w.apas[a].endpoint < |w.endpoints| && a in w.endpoints[w.apas[a].endpoint].pool.out
  {
    assert LeaseOk(c, w.cas[c], w.places);
    assert HomeOk(w.cas[c].apa.value, w);
  }

  lemma ReturnedOk(w: World, c: nat)
    requires LeasesOk(w) && c < |w.cas| && w.cas[c].open && w.cas[c].apa.Some?
    requires w.cas[c].apa.value < |w.apas| && w.apas[w.cas[c].apa.value].endpoint < |w.endpoints|
    ensures LeasesOk(Returned(w, c))
  {
    LeaseMeans(w, c);
    var a := w.cas[c].apa.value;
    var e := w.apas[a].endpoint;
    var w' := Returned(w, c);
    assert EndpointOk(e, w);
    GivenTo(w.endpoints[e].pool, a);
    hide Ok;
    forall b: nat
      ensures HomeOk(b, w')
    {
      assert HomeOk(b, w);
    }
    forall d: nat
      ensures EndpointOk(d, w')
    {
      assert EndpointOk(d, w);
    }
  }

  /** The consumer connection `c` is closed and goes back to its pool; a connection it leases is lost. */
  function Aborted(w: World, c: nat): World
    requires c < |w.cas| && |w.apas| == |w.places|
  {
    var w1 := w.(caPool := PoolView.Return(w.caPool, c), cas := w.cas[c := CLOSED]);
    match w.cas[c].apa
    case None => w1
    case Some(a) =>
      if a >= |w.apas| then w1
      else w1.(apas := w.apas[a := w.apas[a].(open := false, owner := None, writable := false)],
               places := w.places[a := Lost])
  }

  /** The consumer connection `c` goes back to its pool, and nothing else happens. */
  function Closed(w: World, c: nat): World
    requires c < |w.cas|
  {
    w.(caPool := PoolView.Return(w.caPool, c), cas := w.cas[c := CLOSED])
  }

  lemma AbortedOk(w: World, c: nat)
    requires LeasesOk(w) && c < |w.cas| && w.cas[c].open
    ensures (w.cas[c].apa.Some? ==> w.cas[c].apa.value < |w.apas|) && LeasesOk(Aborted(w, c))
  {
    GivenTo(w.caPool, c);
    if w.cas[c].apa.Some? {
      LeaseMeans(w, c);
    }
    var w' := Aborted(w, c);
    hide Ok;
    forall b: nat
      ensures HomeOk(b, w')
    {
      assert HomeOk(b, w);
    }
    forall d: nat
      ensures EndpointOk(d, w')
    {
      assert EndpointOk(d, w);
    }
    assert CasOk(w'.caPool, w'.cas);
  }

  /** Nothing but the connections named has changed. */
  ghost predicate OthersSame(w: World, w': World, c: nat, a: Option<nat>) {
    && |w'.cas| == |w.cas| && |w'.apas| == |w.apas| && |w'.places| == |w.places| && |w'.endpoints| == |w.endpoints|
    && (forall d :: 0 <= d < |w.cas| && d != c ==> w'.cas[d] == w.cas[d])
    && (forall b :: 0 <= b < |w.apas| && a != Some(b) ==> w'.apas[b] == w.apas[b])
    && (forall b :: 0 <= b < |w.places| && a != Some(b) ==> w'.places[b] == w.places[b])
  }

  /** The connection is in no pool. */
  ghost predicate Unpooled(w: World, a: nat) {
    forall e :: 0 <= e < |w.endpoints| ==> a !in w.endpoints[e].pool.free
  }

  lemma NotPooled(w: World, a: nat)
    requires LeasesOk(w) && a < |w.apas| && !w.places[a].Pooled?
    ensures Unpooled(w, a)
  {
    hide Ok, CasOk, ApaOk;
    forall e | 0 <= e < |w.endpoints|
      ensures a !in w.endpoints[e].pool.free
    {
      assert EndpointOk(e, w);
      assert HomeOk(a, w);
    }
  }

  /** What an abort does: the consumer connection is closed and back in its pool; an upstream connection that it leased
      is closed, has no events left, and is in no pool; and nothing else has changed. */
  lemma AbortedExactly(w: World, c: nat)
    requires LeasesOk(w) && c < |w.cas| && w.cas[c].open
    ensures w.cas[c].apa.Some? ==> w.cas[c].apa.value < |w.apas|
    ensures var w', apa := Aborted(w, c), w.cas[c].apa;
            && OthersSame(w, w', c, apa) && w'.endpoints == w.endpoints
            && !w'.cas[c].open && w'.cas[c].apa.None? && c in w'.caPool.free && c !in w'.caPool.out
            && (apa.Some? ==>
                  && w'.places[apa.value].Lost? && !w'.apas[apa.value].open && w'.apas[apa.value].owner.None?
                  && !w'.apas[apa.value].writable && Unpooled(w', apa.value))
  {
    AbortedOk(w, c);
    GivenTo(w.caPool, c);
    hide LeasesOk, Ok, Unpooled;
    if w.cas[c].apa.Some? {
      LeaseMeans(w, c);
      NotPooled(Aborted(w, c), w.cas[c].apa.value);
    }
  }

  /** What taking a lease does: the consumer connection has the upstream connection, whose events are registered for it
      and report when it can be written to, and which is in no pool any more. */
  lemma LentExactly(w: World, c: nat, e: nat, a: nat)
    requires LeasesOk(w) && c < |w.cas| && w.cas[c].open && w.cas[c].apa.None? && e < |w.endpoints|
    requires PoolView.Get(w.endpoints[e].pool, NoMemory).1 == Some(a)
    ensures a < |w.apas|
    ensures var w' := Lent(w, c, e, a);
            && OthersSame(w, w', c, Some(a)) && w'.caPool == w.caPool
            && w'.cas[c] == w.cas[c].(apa := Some(a)) && w'.places[a] == Leased(c) && Unpooled(w', a)
            && w'.apas[a] == w.apas[a].(owner := Some(c), writable := true) && w'.apas[a].open
            && (forall d :: 0 <= d < |w.endpoints| ==>
                  w'.endpoints[d].totalMs == w.endpoints[d].totalMs
                    && w'.endpoints[d].numReqs == w.endpoints[d].numReqs)
            && (forall d :: 0 <= d < |w.endpoints| && d != e ==> w'.endpoints[d] == w.endpoints[d])
  {
    LentOk(w, c, e, a);
    hide LeasesOk, Ok, PoolView.Get, Unpooled;
    NotPooled(Lent(w, c, e, a), a);
    StillOpen(w, a);
  }

  lemma StillOpen(w: World, a: nat)
    requires LeasesOk(w) && a < |w.apas| && w.places[a].Pooled?
    ensures w.apas[a].open
  {
    assert HomeOk(a, w);
  }

  /** What the end of a lease does: the upstream connection is open, has no events, and is in the pool of its endpoint;
      the consumer connection stays open without it. */
  lemma ReturnedExactly(w: World, c: nat)
    requires LeasesOk(w) && c < |w.cas| && w.cas[c].open && w.cas[c].apa.Some?
    ensures w.cas[c].apa.value < |w.apas| && w.apas[w.cas[c].apa.value].endpoint < |w.endpoints|
    ensures var w', a := Returned(w, c), w.cas[c].apa.value;
            var e := w.apas[a].endpoint;
            && OthersSame(w, w', c, Some(a)) && w'.caPool == w.caPool
            && w'.cas[c] == w.cas[c].(apa := None) && w'.places[a].Pooled?
            && w'.apas[a] == w.apas[a].(owner := None, writable := false) && w'.apas[a].open
            && a in w'.endpoints[e].pool.free && a !in w'.endpoints[e].pool.out
            && w'.endpoints[e].totalMs == w.endpoints[e].totalMs && w'.endpoints[e].numReqs == w.endpoints[e].numReqs
            && (forall d :: 0 <= d < |w.endpoints| && d != e ==> w'.endpoints[d] == w.endpoints[d])
  {
    LeaseMeans(w, c);
    var a := w.cas[c].apa.value;
    assert EndpointOk(w.apas[a].endpoint, w);
    GivenTo(w.endpoints[w.apas[a].endpoint].pool, a);
    hide LeasesOk, Ok, PoolOk;
  }

  /** A new consumer connection is taken from its pool. */
  function Accepted(w: World, c: nat): World
    requires c < |w.cas|
  {
    w.(caPool := PoolView.Get(w.caPool, NoMemory).0, cas := w.cas[c := NEW])
  }

  lemma AcceptedOk(w: World, c: nat)
    requires LeasesOk(w) && PoolView.Get(w.caPool, NoMemory).1 == Some(c)
    ensures c < |w.cas| && !w.cas[c].open && LeasesOk(Accepted(w, c))
  {
    assert c in w.caPool.free;
    TakenFrom(w.caPool);
    var w' := Accepted(w, c);
    hide Ok, PoolOk;
    forall b: nat
      ensures HomeOk(b, w')
    {
      assert HomeOk(b, w);
    }
    forall d: nat
      ensures EndpointOk(d, w')
    {
      assert EndpointOk(d, w);
    }
    OneMoreOpen(w.caPool, w'.caPool, w.cas, c);
  }

  lemma OneMoreOpen(v: View<nat>, v': View<nat>, cas: seq<Ca>, c: nat)
    requires CasOk(v, cas) && c < |cas| && Ok(v') && v'.limit == v.limit && Allocated(v') == v.limit
    requires v'.out == v.out + {c} && v.free == [c] + v'.free && c !in v'.free
    ensures CasOk(v', cas[c := NEW])
  {
    hide Ok;
    assert forall x :: x in v.free <==> x == c || x in v'.free;
  }

  // ----- the handlers -----

  /** Every pool of an endpoint is as large as every other. */
  const POOL_SIZE: nat := 512

  const NUM_CONSUMERS: nat := 1024

  function FullPool(size: nat, first: nat): View<nat> {
    View(size, size, seq(size, i requires 0 <= i < size => first + i), {})
  }

  /** The agent after `consumer_init` with `n` endpoints: all connections are in their pools. */
  function Initial(n: nat): World {
    World(seq(n, e requires 0 <= e < n => Endpoint(1, 1, FullPool(POOL_SIZE, e * POOL_SIZE))),
          FullPool(NUM_CONSUMERS, 0), seq(NUM_CONSUMERS, i => CLOSED),
          seq(n * POOL_SIZE, a requires 0 <= a < n * POOL_SIZE => Apa(true, a / POOL_SIZE, 0, None, false)),
          seq(n * POOL_SIZE, i => Pooled))
  }

  lemma FullPoolOk(size: nat, first: nat)
    ensures Ok(FullPool(size, first)) && Allocated(FullPool(size, first)) == size
    ensures forall x :: x in FullPool(size, first).free <==> first <= x < first + size
  {
    var free := FullPool(size, first).free;
    forall x | first <= x < first + size
      ensures x in free
    {
      assert free[x - first] == x;
    }
  }

  lemma InitialOk(n: nat)
    requires n > 0
    ensures LeasesOk(Initial(n))
  {
    var w := Initial(n);
    FullPoolOk(NUM_CONSUMERS, 0);
    hide Ok, FullPool;
    forall e: nat
      ensures EndpointOk(e, w)
    {
      FullPoolOk(POOL_SIZE, e * POOL_SIZE);
      InitialEndpoint(n, e);
    }
    forall a: nat
      ensures HomeOk(a, w)
    {
      FullPoolOk(POOL_SIZE, a / POOL_SIZE * POOL_SIZE);
      InitialHome(n, a);
    }
    InitialCas(n);
  }

  /** What every endpoint starts with: one request that took one millisecond, and 512 connections that are open. */
  lemma InitialExactly(n: nat, e: nat)
    requires e < n
    ensures var w := Initial(n);
            && |w.endpoints| == n && w.endpoints[e].totalMs == w.endpoints[e].numReqs == 1
            && |w.endpoints[e].pool.free| == 512 && w.endpoints[e].pool.out == {}
            && |w.cas| == |w.caPool.free| == 1024 && (forall c :: 0 <= c < 1024 ==> !w.cas[c].open)
            && (forall a :: a in w.endpoints[e].pool.free ==> a < |w.apas| && w.apas[a].open)
  {
    InitialOk(n);
    var w := Initial(n);
    forall a | a in w.endpoints[e].pool.free
      ensures a < |w.apas| && w.apas[a].open
    {
      assert EndpointOk(e, w) && HomeOk(a, w);
    }
  }

  lemma InitialCas(n: nat)
    ensures CasOk(Initial(n).caPool, Initial(n).cas)
  {
    FullPoolOk(NUM_CONSUMERS, 0);
    hide Ok;
  }

  lemma InitialEndpoint(n: nat, e: nat)
    ensures EndpointOk(e, Initial(n))
  {
    FullPoolOk(POOL_SIZE, e * POOL_SIZE);
    hide Ok;
    if e < n {
      assert (e + 1) * POOL_SIZE <= n * POOL_SIZE;
      forall a: nat | e * POOL_SIZE <= a < (e + 1) * POOL_SIZE
        ensures a / POOL_SIZE == e
      {
      }
    }
  }

  lemma InitialHome(n: nat, a: nat)
    ensures HomeOk(a, Initial(n))
  {
    FullPoolOk(POOL_SIZE, a / POOL_SIZE * POOL_SIZE);
    hide Ok;
  }

  class Agent {
    var endpoints: seq<Endpoint>
    var caPool: View<nat>
    var cas: seq<Ca>
    var apas: seq<Apa>
    ghost var places: seq<Place>
    ghost var traffic: seq<Traffic>

    ghost function Now(): World
      reads this
    {
      World(endpoints, caPool, cas, apas, places)
    }

    ghost predicate Valid()
      reads this
    {
      && LeasesOk(Now())
      && (forall e :: 0 <= e < |endpoints| ==> endpoints[e].pool.limit == POOL_SIZE)
      && |traffic| == |cas|
      && forall c :: 0 <= c < |cas| ==> CursorsOk(cas[c]) && Conserved(cas[c], traffic[c])
    }

    /** `consumer_init`, once `n` endpoints have been discovered and connected to. */
    constructor (n: nat)
      requires n > 0
      ensures Valid() && Now() == Initial(n)
    {
      var w := Initial(n);
      endpoints, caPool, cas, apas, places := w.endpoints, w.caPool, w.cas, w.apas, w.places;
      traffic := seq(|w.cas|, i => NO_TRAFFIC);
      new;
      InitialOk(n);
      hide LeasesOk;
    }

    /** `abort_connection_ca` */
    method Abort(c: nat)
      requires Valid() && c < |cas| && cas[c].open
      modifies this
      ensures Valid() && Now() == Aborted(old(Now()), c) && traffic == old(traffic)
    {
      AbortedOk(Now(), c);
      if cas[c].apa.Some? {
        var a := cas[c].apa.value;
        apas := apas[a := apas[a].(open := false, owner := None, writable := false)];
        places := places[a := Lost];
      }
      caPool := PoolView.Return(caPool, c);
      cas := cas[c := CLOSED];
    }

    /** The consumer has closed its connection. An upstream connection it leases stays behind with its events, out of
        its pool: the loop is in order only if there is none. */
    method Close(c: nat)
      requires Valid() && c < |cas| && cas[c].open
      modifies `caPool, `cas
      ensures Now() == Closed(old(Now()), c)
      ensures Valid() <==> old(cas)[c].apa.None?
    {
      ghost var w := Now();
      AbortedOk(w, c);
      caPool := PoolView.Return(caPool, c);
      cas := cas[c := CLOSED];
      if w.cas[c].apa.Some? {
        LeaseMeans(w, c);
        assert !HomeOk(w.cas[c].apa.value, Now());
      }
    }

    /** `consumer_http_handler` */
    method Accept() returns (r: Option<nat>)
      requires Valid()
      modifies this
      ensures Valid()
      ensures r.None? <==> old(caPool.free) == []
      ensures r.None? ==> Now() == old(Now()) && traffic == old(traffic)
      ensures r.Some? ==>
                && r.value < |old(cas)| == |cas| == |old(traffic)| && !old(cas)[r.value].open
                && cas[r.value] == Ca(true, "", 0, "", 0, None, false)
                && Now() == Accepted(old(Now()), r.value) && traffic == old(traffic)[r.value := NO_TRAFFIC]
    {
      hide LeasesOk, PoolView.Get;
      if caPool.free == [] {
        return None;
      }
      var c := caPool.free[0];
      TopOfPool(caPool);
      AcceptedOk(Now(), c);
      var (pool, _) := PoolView.Get(caPool, NoMemory);
      caPool := pool;
      cas := cas[c := NEW];
      traffic := traffic[c := NO_TRAFFIC];
      return Some(c);
    }

    /** A change of the buffers of an open connection. */
    method SetCa(c: nat, ca: Ca, ghost t: Traffic)
      requires Valid() && c < |cas| && ca.open == cas[c].open && ca.apa == cas[c].apa
      requires CursorsOk(ca) && Conserved(ca, t)
      modifies `cas, `traffic
      ensures Valid() && Now() == WithCa(old(Now()), c, ca) && traffic == old(traffic)[c := t]
    {
      hide LeasesOk, Conserved, CursorsOk;
      SameLease(Now(), c, ca);
      cas := cas[c := ca];
      traffic := traffic[c := t];
    }

    /** The choice of an endpoint. One without a connection left is chosen only if no endpoint has one. */
    method Choose() returns (e: nat)
      requires Valid()
      ensures e < |endpoints| && B.Counted(StatsOf(endpoints)) && B.IsChoice(StatsOf(endpoints), e)
      ensures endpoints[e].pool.free == [] ==> forall d :: 0 <= d < |endpoints| ==> endpoints[d].pool.free == []
    {
      hide LeasesOk;
      PoolsFull(Now());
      var stats := StatsOf(endpoints);
      e := B.MinLatency(stats);
      if endpoints[e].pool.free == [] {
        Exhausted(endpoints, stats, e);
      }
    }

    /** An upstream connection for `c`. There is none only if every endpoint is exhausted. */
    method Lease(c: nat) returns (a: Option<nat>)
      requires Valid() && c < |cas| && cas[c].open && cas[c].apa.None?
      modifies `endpoints, `cas, `apas, `places
      ensures Valid() && traffic == old(traffic) && |cas| == |old(cas)|
      ensures a.None? ==> Now() == old(Now()) && forall e :: 0 <= e < |endpoints| ==> endpoints[e].pool.free == []
      ensures a.Some? ==>
                && a.value < |old(apas)| && old(places)[a.value].Pooled?
                && var e := old(apas)[a.value].endpoint;
                   && e < |old(endpoints)| && PoolView.Get(old(endpoints)[e].pool, NoMemory).1 == a
                   && Now() == Lent(old(Now()), c, e, a.value)
                   && B.Counted(StatsOf(old(endpoints))) && B.IsChoice(StatsOf(old(endpoints)), e)
    {
      var e := Choose();
      var (pool, r) := PoolView.Get(endpoints[e].pool, NoMemory);
      if r.None? {
        return None;
      }
      PoolKeepsSize(endpoints[e].pool);
      LentOk(Now(), c, e, r.value);
      hide LeasesOk, PoolView.Get;
      endpoints := endpoints[e := endpoints[e].(pool := pool)];
      cas := cas[c := cas[c].(apa := r)];
      apas := apas[r.value := apas[r.value].(owner := Some(c), writable := true)];
      places := places[r.value := Leased(c)];
      return r;
    }

    /** `read_from_consumer`. It gives the connection up only on a read error, at the end of the input, or when every
        upstream connection of every endpoint is in use or lost. The leases stay in order exactly unless the consumer
        closes its connection while it holds one. */
    method ReadFromConsumer(c: nat, g: Got)
      requires Valid() && c < |cas| && cas[c].open
      requires g.GotBytes? ==> 0 < |g.bytes| <= REQ_BUF - |cas[c].bufIn|
      modifies this
      ensures Valid() <==> !(g.GotEnd? && old(cas)[c].apa.Some?)
      ensures |cas| == |old(cas)|
      ensures g.GotEnd? ==> Now() == Closed(old(Now()), c)
      ensures g.ReadFailed? ==> Now() == Aborted(old(Now()), c)
      ensures g.ReadBlocked? ==> Now() == old(Now()) && traffic == old(traffic)
      ensures g.GotBytes? ==>
                var ca := old(cas)[c];
                var w := WithCa(old(Now()), c, ca.(bufIn := ca.bufIn + g.bytes, bufOut := "", nwriteOut := 0));
                && traffic == old(traffic)[c := ReadOn(old(traffic)[c], g.bytes, ca)]
                && if ca.apa.Some? then
                     && ca.apa.value < |w.apas|
                     && Now() == WithApa(w, ca.apa.value, w.apas[ca.apa.value].(writable := true))
                   else if cas[c].open then
                     && cas[c].apa.Some? && cas[c].apa.value < |w.apas|
                     && var e := w.apas[cas[c].apa.value].endpoint;
                        && e < |w.endpoints| && PoolView.Get(w.endpoints[e].pool, NoMemory).1 == cas[c].apa
                        && Now() == Lent(w, c, e, cas[c].apa.value)
                        && B.Counted(StatsOf(w.endpoints)) && B.IsChoice(StatsOf(w.endpoints), e)
                   else
                     && Now() == Aborted(w, c)
                     && forall e :: 0 <= e < |endpoints| ==> endpoints[e].pool.free == []
    {
      hide LeasesOk, Conserved, CursorsOk, ReadOn, ReadBack, StatsOf;
      match g
      case GotBytes(bytes) =>
        var ca, t := cas[c], traffic[c];
        ReadOnConserved(ca, t, bytes);
        SetCa(c, ca.(bufIn := ca.bufIn + bytes, bufOut := "", nwriteOut := 0), ReadOn(t, bytes, ca));
        if ca.apa.None? {
          var r := Lease(c);
          if r.None? {
            Abort(c);
          }
        } else {
          LeaseMeans(Now(), c);
          var a := ca.apa.value;
          SameHolder(Now(), a, apas[a].(writable := true));
          apas := apas[a := apas[a].(writable := true)];
        }
      case GotEnd => Close(c);
      case ReadBlocked =>
      case ReadFailed => Abort(c);
    }

    /** `_write_to_remote_agent`, called for an event of the connection `a` that is registered for `c`. */
    method WriteToAgent(c: nat, a: nat, w: Written, now: int)
      requires Valid() && c < |cas| && a < |apas| && apas[a].owner == Some(c) && apas[a].writable
      requires w.Wrote? ==> w.n <= |cas[c].bufIn| - cas[c].nwriteIn
      modifies this
      ensures Valid() && |cas| == |old(cas)| && |apas| == |old(apas)|
      ensures w.WriteFailed? ==> Now() == Aborted(old(Now()), c)
      ensures w.WriteBlocked? ==> Now() == old(Now()) && traffic == old(traffic)
      ensures w.Wrote? ==>
                var ca := old(cas)[c];
                var sent := WithCa(old(Now()), c, ca.(nwriteIn := ca.nwriteIn + w.n));
                var t := old(traffic)[c];
                && traffic == old(traffic)[c := t.(toAgent := t.toAgent + ca.bufIn[ca.nwriteIn..ca.nwriteIn + w.n])]
                && Now() == if ca.nwriteIn + w.n == |ca.bufIn|
                            then WithApa(sent, a, sent.apas[a].(writable := false, reqStart := now)) else sent
    {
      hide LeasesOk, Conserved, CursorsOk, ReadOn, ReadBack, StatsOf;
      OwnerMeans(Now(), a);
      match w
      case Wrote(n) =>
        var ca, t := cas[c], traffic[c];
        SentOnConserved(ca, t, n);
        SetCa(c, ca.(nwriteIn := ca.nwriteIn + n), t.(toAgent := t.toAgent + ca.bufIn[ca.nwriteIn..ca.nwriteIn + n]));
        if ca.nwriteIn + n == |ca.bufIn| {
          SameHolder(Now(), a, apas[a].(writable := false, reqStart := now));
          apas := apas[a := apas[a].(writable := false, reqStart := now)];
        }
      case WriteBlocked =>
      case WriteFailed => Abort(c);
    }

    /** `read_from_remote_agent` */
    method ReadFromAgent(c: nat, a: nat, g: Got, now: int)
      requires Valid() && c < |cas| && a < |apas| && apas[a].owner == Some(c)
      requires g.GotBytes? ==> 0 < |g.bytes| <= RESP_BUF - |cas[c].bufOut|
      modifies this
      ensures Valid() && |cas| == |old(cas)| && |endpoints| == |old(endpoints)|
      ensures g.GotEnd? || g.ReadFailed? ==> Now() == Aborted(old(Now()), c)
      ensures g.ReadBlocked? ==> Now() == old(Now()) && traffic == old(traffic)
      ensures g.GotBytes? ==>
                var ca, e := old(cas)[c], old(apas)[a].endpoint;
                && traffic == old(traffic)[c := ReadBack(old(traffic)[c], g.bytes, ca)]
                && e < |old(endpoints)|
                && Now() == WithStats(
                     WithCa(old(Now()), c, ca.(bufOut := ca.bufOut + g.bytes, bufIn := "", nwriteIn := 0,
                                               writable := true)),
                     e, old(endpoints)[e].totalMs + (now - old(apas)[a].reqStart), old(endpoints)[e].numReqs + 1)
                && endpoints[e].totalMs == old(endpoints)[e].totalMs + (now - old(apas)[a].reqStart)
                && endpoints[e].numReqs == old(endpoints)[e].numReqs + 1
                && endpoints[e].pool == old(endpoints)[e].pool
                && (forall d :: 0 <= d < |endpoints| && d != e ==> endpoints[d] == old(endpoints)[d])
    {
      hide LeasesOk, Conserved, CursorsOk, ReadOn, ReadBack, StatsOf;
      OwnerMeans(Now(), a);
      match g
      case GotBytes(bytes) =>
        var ca, t := cas[c], traffic[c];
        ReadBackConserved(ca, t, bytes);
        SetCa(c, ca.(bufOut := ca.bufOut + bytes, bufIn := "", nwriteIn := 0, writable := true),
              ReadBack(t, bytes, ca));
        var e := apas[a].endpoint;
        var totalMs, numReqs := endpoints[e].totalMs + (now - apas[a].reqStart), endpoints[e].numReqs + 1;
        PoolsFull(Now());
        SamePools(Now(), e, totalMs, numReqs);
        endpoints := endpoints[e := endpoints[e].(totalMs := totalMs, numReqs := numReqs)];
      case GotEnd => Abort(c);
      case ReadBlocked =>
      case ReadFailed => Abort(c);
    }

    /** `_write_to_consumer`. When the reply has been written the lease is over; a write that would block is
        treated like one that failed. */
    method WriteToConsumer(c: nat, w: Written)
      requires Valid() && c < |cas| && cas[c].open && cas[c].writable
      requires w.Wrote? ==> w.n <= |cas[c].bufOut| - cas[c].nwriteOut
      modifies this
      ensures Valid() && |cas| == |old(cas)|
      ensures !w.Wrote? ==> Now() == Aborted(old(Now()), c)
      ensures w.Wrote? ==>
                var ca := old(cas)[c];
                var done := ca.nwriteOut + w.n == |ca.bufOut|;
                var sent := WithCa(old(Now()), c, ca.(nwriteOut := ca.nwriteOut + w.n, writable := !done));
                var t := old(traffic)[c];
                && traffic == old(traffic)[c := t.(toConsumer := t.toConsumer
                                                   + ca.bufOut[ca.nwriteOut..ca.nwriteOut + w.n])]
                && (ca.apa.Some? ==> ca.apa.value < |sent.apas| && sent.apas[ca.apa.value].endpoint < |sent.endpoints|)
                && |sent.apas| == |sent.places|
                && Now() == if done && ca.apa.Some? then Returned(sent, c) else sent
    {
      hide LeasesOk, Conserved, CursorsOk, ReadOn, ReadBack, StatsOf;
      match w
      case Wrote(n) =>
        var ca, t := cas[c], traffic[c];
        var done := ca.nwriteOut + n == |ca.bufOut|;
        SentBackConserved(ca, t, n, !done);
        PoolsFull(Now());
        SetCa(c, ca.(nwriteOut := ca.nwriteOut + n, writable := !done),
              t.(toConsumer := t.toConsumer + ca.bufOut[ca.nwriteOut..ca.nwriteOut + n]));
        if ca.apa.Some? {
          LeaseMeans(Now(), c);
        }
        if done && ca.apa.Some? {
          Release(c);
        }
      case WriteBlocked => Abort(c);
      case WriteFailed => Abort(c);
    }

    /** The upstream connection goes back to its pool. */
    method Release(c: nat)
      requires Valid() && c < |cas| && cas[c].open && cas[c].apa.Some?
      modifies `endpoints, `cas, `apas, `places
      ensures Valid() && traffic == old(traffic)
      ensures old(cas)[c].apa.value < |old(apas)| == |old(places)|
      ensures old(apas)[old(cas)[c].apa.value].endpoint < |old(endpoints)|
      ensures Now() == Returned(old(Now()), c)
    {
      LeaseMeans(Now(), c);
      ReturnedOk(Now(), c);
      var a := cas[c].apa.value;
      var e := apas[a].endpoint;
      endpoints := endpoints[e := endpoints[e].(pool := PoolView.Return(endpoints[e].pool, a))];
      cas := cas[c := cas[c].(apa := None)];
      apas := apas[a := apas[a].(owner := None, writable := false)];
      places := places[a := Pooled];
    }
  }

  /** The events of an upstream connection are registered for the consumer connection that leases it. */
  lemma OwnerMeans(w: World, a: nat)
    requires LeasesOk(w) && a < |w.apas| && w.apas[a].owner.Some?
    ensures var c := w.apas[a].owner.value;
            && c < |w.cas| && w.cas[c].open && w.cas[c].apa == Some(a) && a < |w.places| && w.places[a] == Leased(c)
            && w.apas[a].endpoint < |w.endpoints|
  {
    assert HomeOk(a, w);
  }

  /** No two consumer connections lease the same upstream connection. */
  lemma LeasesAreExclusive(w: World, c: nat, d: nat)
    requires LeasesOk(w) && c < |w.cas| && d < |w.cas| && w.cas[c].open && w.cas[d].open
    requires w.cas[c].apa.Some? && w.cas[c].apa == w.cas[d].apa
    ensures c == d
  {
    LeaseMeans(w, c);
    LeaseMeans(w, d);
  }

  /** Every upstream connection is in exactly one place: in the pool of its endpoint, with one open consumer
      connection, or lost; and it is lost exactly when it is closed. */
  lemma EveryConnectionHasAPlace(w: World, a: nat)
    requires LeasesOk(w) && a < |w.apas|
    ensures w.apas[a].endpoint < |w.endpoints|
    ensures var pool := w.endpoints[w.apas[a].endpoint].pool;
            if a in pool.free then
              && w.apas[a].open
              && forall c :: 0 <= c < |w.cas| && w.cas[c].open ==> w.cas[c].apa != Some(a)
            else
              && a in pool.out
              && (w.apas[a].open <==> exists c :: 0 <= c < |w.cas| && w.cas[c].open && w.cas[c].apa == Some(a))
  {
    assert HomeOk(a, w);
    forall c | 0 <= c < |w.cas| && w.cas[c].open && w.cas[c].apa == Some(a)
      ensures w.places[a] == Leased(c)
    {
      LeaseMeans(w, c);
    }
  }

  /** The pools of all endpoints hold or have lent all their elements. */
  lemma PoolsFull(w: World)
    requires LeasesOk(w)
    ensures forall e :: 0 <= e < |w.endpoints| ==>
              Allocated(w.endpoints[e].pool) == w.endpoints[e].pool.limit && w.endpoints[e].numReqs >= 1
    ensures w.endpoints != [] && |w.places| == |w.apas|
  {
    forall e | 0 <= e < |w.endpoints|
      ensures Allocated(w.endpoints[e].pool) == w.endpoints[e].pool.limit && w.endpoints[e].numReqs >= 1
    {
      assert EndpointOk(e, w);
    }
  }

  lemma {:induction false} Exhausted(es: seq<Endpoint>, stats: seq<B.Stats>, k: nat)
    requires es != [] && stats == StatsOf(es) && k < |es| && B.Counted(stats) && B.IsChoice(stats, k)
    requires forall e :: 0 <= e < |es| ==> es[e].pool.limit == POOL_SIZE == Allocated(es[e].pool)
    requires es[k].pool.free == []
    ensures forall e :: 0 <= e < |es| ==> es[e].pool.free == []
  {
    B.OnlyWhenAllExhausted(stats, k, POOL_SIZE);
    forall e | 0 <= e < |es|
      ensures es[e].pool.free == []
    {
      assert stats[e].outstanding == POOL_SIZE;
    }
  }

  /** Each side has been sent a beginning of what the other side sent, and all of it once the buffers are empty, as long
      as no buffer was reset too early. Otherwise bytes are missing for good. */
  lemma NothingLost(ca: Ca, t: Traffic)
    requires CursorsOk(ca) && Conserved(ca, t) && ca.open
    ensures t.halfDuplex <==> Intact(ca, t)
    ensures t.halfDuplex ==> t.toAgent <= t.fromConsumer && t.toConsumer <= t.fromAgent
    ensures ca.nwriteIn == |ca.bufIn| && ca.nwriteOut == |ca.bufOut| ==>
              (t.halfDuplex <==> t.toAgent == t.fromConsumer && t.toConsumer == t.fromAgent)
    ensures !t.halfDuplex ==> MissingIn(ca, t) + MissingOut(ca, t) > 0
  {
    if Intact(ca, t) {
      assert |t.fromConsumer| == |t.toAgent + ca.bufIn[ca.nwriteIn..]|;
      assert |t.fromAgent| == |t.toConsumer + ca.bufOut[ca.nwriteOut..]|;
    }
  }
}
