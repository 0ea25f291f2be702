/** Two runs of the consumer agent in which a reply does not reach the consumer it is for. */
module ConsumerRuns {
  import opened Consumer
  import opened Options
  import opened PoolView
  import opened Sockets
  import Balancer

  lemma FirstOfPool()
    ensures |Initial(1).endpoints| == 1 && Initial(1).endpoints[0].pool.free != []
    ensures Initial(1).caPool.free != [] && PoolView.Get(Initial(1).caPool, NoMemory).0.free != []
  {
  }

  /** A consumer connection with a lease, whose request has been written. */
  method Asked(text: string) returns (agent: Agent, c: nat, a: nat)
    requires 0 < |text| <= REQ_BUF
    ensures fresh(agent) && agent.Valid() && |agent.endpoints| == 1 && agent.caPool.free != []
    ensures c < |agent.cas| && agent.cas[c].open && agent.cas[c].apa == Some(a) && agent.cas[c].bufOut == ""
    ensures agent.cas[c].nwriteOut == 0
    ensures a < |agent.apas| && agent.apas[a].owner == Some(c)
    ensures agent.traffic[c] == Traffic(text, text, "", "", true)
  {
    hide LeasesOk, Balancer.IsChoice, Balancer.Counted, StatsOf, PoolView.Get, PoolView.Return;
    agent := new Agent(1);
    var r := agent.Accept();
    c := r.value;
    FirstOfPool();
    agent.ReadFromConsumer(c, GotBytes(text));
    if !agent.cas[c].open {
      assert false;
    }
    a := agent.cas[c].apa.value;
    agent.WriteToAgent(c, a, Wrote(|text|), 0);
  }

  /** A consumer that sends its next request before it has been sent the reply loses the reply. */
  method ReplyDropped() returns (agent: Agent, c: nat)
    ensures fresh(agent) && agent.Valid() && c < |agent.cas| && agent.cas[c].open
    ensures agent.cas[c].bufOut == "" && agent.traffic[c].fromAgent == "r" && agent.traffic[c].toConsumer == ""
    ensures MissingOut(agent.cas[c], agent.traffic[c]) == 1 && !agent.traffic[c].halfDuplex
  {
    hide LeasesOk, Balancer.IsChoice, Balancer.Counted, StatsOf, PoolView.Get, PoolView.Return;
    var a;
    agent, c, a := Asked("q");
    agent.ReadFromAgent(c, a, GotBytes("r"), 1);
    agent.ReadFromConsumer(c, GotBytes("q"));
  }

  /** An upstream connection whose lease ends is the next to be leased. */
  lemma NextToBeLeased(w: World, c: nat)
    requires LeasesOk(w) && c < |w.cas| && w.cas[c].open && w.cas[c].apa.Some?
    ensures var a := w.cas[c].apa.value;
            && a < |w.apas| && w.apas[a].endpoint < |w.endpoints|
            && var pool := PoolView.Return(w.endpoints[w.apas[a].endpoint].pool, a);
               pool.free != [] && pool.free[0] == a && PoolView.Get(pool, NoMemory).1 == Some(a)
  {
    LeaseMeans(w, c);
    var a := w.cas[c].apa.value;
    assert EndpointOk(w.apas[a].endpoint, w);
    GivenTo(w.endpoints[w.apas[a].endpoint].pool, a);
  }

  /** The first part of a reply has been written: the lease is over. */
  method PartWritten() returns (agent: Agent, c: nat, a: nat)
    ensures fresh(agent) && agent.Valid() && |agent.endpoints| == 1 && agent.caPool.free != []
    ensures c < |agent.cas| && agent.cas[c].open && agent.cas[c].apa.None?
    ensures agent.traffic[c] == Traffic("c", "c", "re", "re", true)
    ensures agent.endpoints[0].pool.free != [] && PoolView.Get(agent.endpoints[0].pool, NoMemory).1 == Some(a)
    ensures a < |agent.apas|
  {
    hide LeasesOk, Balancer.IsChoice, Balancer.Counted, StatsOf, PoolView.Get, PoolView.Return;
    agent, c, a := Asked("c");
    agent.ReadFromAgent(c, a, GotBytes("re"), 1);
    NextToBeLeased(agent.Now(), c);
    agent.WriteToConsumer(c, Wrote(2));
  }

  /** The lease ends as soon as what has been read of the reply is written: when a reply arrives in two reads, the rest
      of it goes to the consumer that leases the connection next. */
  method RestToTheNext() returns (agent: Agent, c: nat, d: nat)
    ensures fresh(agent) && agent.Valid() && c < |agent.cas| && d < |agent.cas| && c != d
    ensures agent.traffic[c].fromConsumer == "c" && agent.traffic[c].toConsumer == "re" && agent.cas[c].apa.None?
    ensures agent.traffic[d].fromConsumer == "d" && agent.traffic[d].toAgent == "" && agent.cas[d].bufOut == "st"
  {
    hide LeasesOk, Balancer.IsChoice, Balancer.Counted, StatsOf, PoolView.Get, PoolView.Return;
    var a;
    agent, c, a := PartWritten();
    var r := agent.Accept();
    d := r.value;
    agent.ReadFromConsumer(d, GotBytes("d"));
    if !agent.cas[d].open {
      assert false;
    }
    agent.ReadFromAgent(d, a, GotBytes("st"), 2);
  }
}
