/** The choice of the endpoint that serves a request. */
module Balancer {
  import opened Division

  const LOAD_BALANCE_THRESHOLD: int := 10000
  const LOAD_PROTECT_THRESHOLD: nat := 100

  /** The statistics of an endpoint, and the number of connections in use. */
  datatype Stats = Stats(totalMs: int, numReqs: int, outstanding: nat)

  /** Every endpoint starts with one request on its account, so that no latency divides by zero. */
  predicate Counted(es: seq<Stats>) {
    forall i :: 0 <= i < |es| ==> es[i].numReqs >= 1
  }

  function Latency(s: Stats): int
    requires s.numReqs >= 1
  {
    Quotient(s.totalMs, s.numReqs)
  }

  /** The latency is the time for a request, in whole milliseconds towards zero. */
  lemma LatencyExactly(s: Stats)
    requires s.numReqs >= 1
    ensures s.totalMs >= 0 ==> Latency(s) * s.numReqs <= s.totalMs < (Latency(s) + 1) * s.numReqs
    ensures s.totalMs <= 0 ==> (Latency(s) - 1) * s.numReqs < s.totalMs <= Latency(s) * s.numReqs
  {
    var q := Latency(s);
    if s.totalMs >= 0 {
      assert q * s.numReqs == s.totalMs - s.totalMs % s.numReqs;
    } else {
      assert -q * s.numReqs == -s.totalMs - (-s.totalMs) % s.numReqs;
    }
  }

  /** The first of the endpoints with the fewest connections in use. */
  predicate IsLeastLoaded(es: seq<Stats>, k: int) {
    && 0 <= k < |es|
    && (forall i :: 0 <= i < |es| ==> es[k].outstanding <= es[i].outstanding)
    && forall i :: 0 <= i < k ==> es[k].outstanding < es[i].outstanding
  }

  /** The first of the endpoints with the smallest latency. */
  predicate IsFastest(es: seq<Stats>, k: int)
    requires Counted(es)
  {
    && 0 <= k < |es|
    && (forall i :: 0 <= i < |es| ==> Latency(es[k]) <= Latency(es[i]))
    && forall i :: 0 <= i < k ==> Latency(es[k]) < Latency(es[i])
  }

  /** `get_endpoint_least_loaded` */
  method LeastLoaded(es: seq<Stats>) returns (k: int)
    requires es != []
    ensures IsLeastLoaded(es, k)
  {
    k := 0;
    var minOutstanding := es[0].outstanding;
    var i := 1;
    while i < |es|
      invariant 1 <= i <= |es| && 0 <= k < i && minOutstanding == es[k].outstanding
      invariant forall j :: 0 <= j < i ==> minOutstanding <= es[j].outstanding
      invariant forall j :: 0 <= j < k ==> minOutstanding < es[j].outstanding
    {
      if minOutstanding > es[i].outstanding {
        minOutstanding := es[i].outstanding;
        k := i;
      }
      i := i + 1;
    }
  }

  /** The choice: least loaded while there is little experience; then the fastest endpoint, unless that is loaded
      heavily, in which case the least loaded one again. */
  ghost predicate IsChoice(es: seq<Stats>, k: int)
    requires Counted(es) && es != []
  {
    if es[0].numReqs < LOAD_BALANCE_THRESHOLD then IsLeastLoaded(es, k)
    else
      || (IsFastest(es, k) && es[k].outstanding < LOAD_PROTECT_THRESHOLD)
      || (IsLeastLoaded(es, k) && forall f :: IsFastest(es, f) ==> es[f].outstanding >= LOAD_PROTECT_THRESHOLD)
  }

  /** `get_endpoint_min_latency` */
  method MinLatency(es: seq<Stats>) returns (k: int)
    requires es != [] && Counted(es)
    ensures IsChoice(es, k)
  {
    if es[0].numReqs < LOAD_BALANCE_THRESHOLD {
      k := LeastLoaded(es);
      return;
    }
    k := 0;
    var minLatency := Quotient(es[0].totalMs, es[0].numReqs);
    var i := 1;
    while i < |es|
      invariant 1 <= i <= |es| && 0 <= k < i && minLatency == Latency(es[k])
      invariant forall j :: 0 <= j < i ==> minLatency <= Latency(es[j])
      invariant forall j :: 0 <= j < k ==> minLatency < Latency(es[j])
    {
      var latency := Quotient(es[i].totalMs, es[i].numReqs);
      if minLatency > latency {
        minLatency := latency;
        k := i;
      }
      i := i + 1;
    }
    assert IsFastest(es, k);
    ghost var f := ChoiceExactly(es, k);
    if es[k].outstanding >= LOAD_PROTECT_THRESHOLD {
      k := LeastLoaded(es);
      f := ChoiceExactly(es, k);
    }
  }

  lemma FastestUnique(es: seq<Stats>, a: int, b: int)
    requires Counted(es) && IsFastest(es, a) && IsFastest(es, b)
    ensures a == b
  {
    hide Latency;
    assert Latency(es[a]) == Latency(es[b]);
  }

  /** There is a fastest endpoint. */
  lemma {:induction false} FastestOf(es: seq<Stats>) returns (f: int)
    requires es != [] && Counted(es)
    ensures IsFastest(es, f)
  {
    var n := |es| - 1;
    if n == 0 {
      f := 0;
    } else {
      f := FastestOf(es[..n]);
      assert forall i :: 0 <= i < n ==> es[i] == es[..n][i];
      if Latency(es[n]) < Latency(es[f]) {
        f := n;
      }
    }
  }

  /** What the choice is, by the fastest endpoint `f`; there is exactly one, and exactly one choice. */
  lemma ChoiceExactly(es: seq<Stats>, k: int) returns (f: int)
    requires es != [] && Counted(es)
    ensures IsFastest(es, f) && forall g :: IsFastest(es, g) ==> g == f
    ensures IsChoice(es, k) <==>
              if es[0].numReqs >= 10000 && es[f].outstanding < 100 then k == f
              else IsLeastLoaded(es, k)
    ensures forall l :: IsChoice(es, k) && IsChoice(es, l) ==> k == l
  {
    f := FastestOf(es);
    forall g | IsFastest(es, g)
      ensures g == f
    {
      FastestUnique(es, f, g);
    }
  }

  /** No endpoint with 100 or more connections in use is chosen while another has fewer. */
  lemma NoOverload(es: seq<Stats>, k: int, i: int)
    requires es != [] && Counted(es) && IsChoice(es, k) && 0 <= i < |es|
    ensures es[k].outstanding >= 100 ==> es[i].outstanding >= es[k].outstanding
  {
  }

  /** An endpoint with all its connections in use is chosen only if all endpoints are exhausted. */
  lemma OnlyWhenAllExhausted(es: seq<Stats>, k: int, size: nat)
    requires es != [] && Counted(es) && IsChoice(es, k) && size >= LOAD_PROTECT_THRESHOLD
    requires forall i :: 0 <= i < |es| ==> es[i].outstanding <= size
    ensures es[k].outstanding == size ==> forall i :: 0 <= i < |es| ==> es[i].outstanding == size
  {
    forall i | 0 <= i < |es|
      ensures es[k].outstanding == size ==> es[i].outstanding == size
    {
      NoOverload(es, k, i);
    }
  }
}
