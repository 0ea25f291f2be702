/** What a pool of elements means: the elements it keeps and the elements it has handed out. */
module PoolView {
  import opened Lists
  import opened Options

  /** `free` is the stack of elements in the pool, `out` the elements in use. `limit` is the greatest number
      of elements, or 0 for no limit; `buckets` is the number of places in which an element can be kept. */
  datatype View<T> = View(limit: nat, buckets: nat, free: seq<T>, out: set<T>)

  /** What allocating and initialising a new element came to. */
  datatype Supply<T> = NoMemory | InitFailed | New(elem: T)

  predicate Ok<T(==)>(v: View<T>) {
    && Distinct(v.free)
    && (forall x :: x in v.free ==> x !in v.out)
    && |v.free| <= v.buckets
    && (v.limit > 0 ==> v.buckets == v.limit && |v.free| + |v.out| <= v.limit)
  }

  /** `allocated`: the elements that exist, in the pool or in use. */
  function Allocated<T>(v: View<T>): nat {
    |v.free| + |v.out|
  }

  /** `PoolGet` */
  function Get<T(==)>(v: View<T>, supply: Supply<T>): (View<T>, Option<T>) {
    if v.free != [] then (v.(free := v.free[1..], out := v.out + {v.free[0]}), Some(v.free[0]))
    else if (v.limit == 0 || Allocated(v) < v.limit) && supply.New?
    then (v.(out := v.out + {supply.elem}), Some(supply.elem))
    else (v, None)
  }

  /** `PoolReturn`; an element for which there is no bucket is freed. */
  function Return<T(==)>(v: View<T>, x: T): View<T> {
    if |v.free| < v.buckets then v.(free := [x] + v.free, out := v.out - {x}) else v.(out := v.out - {x})
  }

  /** The element that came back last is the first to be handed out again, and nothing else has changed then. */
  lemma LastInFirstOut<T>(v: View<T>, x: T, supply: Supply<T>)
    requires Ok(v) && x in v.out && |v.free| < v.buckets
    ensures Get(Return(v, x), supply) == (v, Some(x))
  {
    assert ([x] + v.free)[1..] == v.free && v.out - {x} + {x} == v.out;
  }

  datatype Op<T> = Take(supply: Supply<T>) | Give(x: T)

  /** The callers' side of the bargain: only elements in use come back, and an element is given back once. */
  predicate Fair<T(==)>(v: View<T>, op: Op<T>) {
    match op
    case Take(supply) => supply.New? ==> supply.elem !in v.free && supply.elem !in v.out
    case Give(x) => x in v.out
  }

  function Step<T(==)>(v: View<T>, op: Op<T>): View<T> {
    match op
    case Take(supply) => Get(v, supply).0
    case Give(x) => Return(v, x)
  }

  ghost predicate FairRun<T>(v: View<T>, ops: seq<Op<T>>)
    decreases |ops|
  {
    ops == [] || (Fair(v, ops[0]) && FairRun(Step(v, ops[0]), ops[1..]))
  }

  ghost function Run<T>(v: View<T>, ops: seq<Op<T>>): View<T>
    decreases |ops|
  {
    if ops == [] then v else Run(Step(v, ops[0]), ops[1..])
  }

  /** Taking an element: it is never one that is already in use, and a pool with a limit refuses
      exactly when all its elements are in use, unless a new one cannot be made. */
  lemma GetOk<T>(v: View<T>, supply: Supply<T>)
    requires Ok(v) && Fair(v, Take(supply))
    ensures var (v', x) := Get(v, supply);
            && Ok(v')
            && (x.Some? ==> x.value !in v.out && v'.out == v.out + {x.value} && x.value !in v'.free)
            && (x.None? ==> v' == v)
            && (x.None? <==> v.free == [] && (!supply.New? || (v.limit > 0 && |v.out| == v.limit)))
  {
  }

  /** Giving an element back: a pool with a limit always has a bucket for it and never frees it. */
  lemma ReturnOk<T>(v: View<T>, x: T)
    requires Ok(v) && x in v.out
    ensures var v' := Return(v, x);
            && Ok(v') && v'.out == v.out - {x}
            && (v.limit > 0 ==> v'.free == [x] + v.free && Allocated(v') == Allocated(v))
            && (|v.free| == v.buckets ==> v'.free == v.free && x !in v.free && Allocated(v') == Allocated(v) - 1)
  {
    assert |v.out - {x}| == |v.out| - 1;
  }

  lemma StepOk<T>(v: View<T>, op: Op<T>)
    requires Ok(v) && Fair(v, op)
    ensures Ok(Step(v, op)) && Step(v, op).limit == v.limit && Step(v, op).buckets == v.buckets
    ensures v.limit > 0 ==> Elements(v) <= Elements(Step(v, op)) && Allocated(v) <= Allocated(Step(v, op))
  {
    match op
    case Take(supply) => GetOk(v, supply);
    case Give(x) => ReturnOk(v, x);
  }

  ghost function Elements<T>(v: View<T>): set<T> {
    (set x | x in v.free) + v.out
  }

  /** Over any run the pool stays in order, and with a limit no element is ever lost. */
  lemma {:induction false} RunOk<T>(v: View<T>, ops: seq<Op<T>>)
    requires Ok(v) && FairRun(v, ops)
    ensures Ok(Run(v, ops)) && Run(v, ops).limit == v.limit && Run(v, ops).buckets == v.buckets
    ensures v.limit > 0 ==> Elements(v) <= Elements(Run(v, ops)) && Allocated(v) <= Allocated(Run(v, ops)) <= v.limit
    decreases |ops|
  {
    hide Ok, Step, Fair, Elements;
    if ops == [] {
      WithinLimit(v);
    } else {
      StepOk(v, ops[0]);
      RunOk(Step(v, ops[0]), ops[1..]);
    }
  }

  lemma WithinLimit<T>(v: View<T>)
    requires Ok(v)
    ensures v.limit > 0 ==> Allocated(v) <= v.limit
  {
  }

  /** An element in use stays in use until it is given back. */
  lemma {:induction false} InUseUntilGivenBack<T>(v: View<T>, ops: seq<Op<T>>, x: T)
    requires Ok(v) && FairRun(v, ops) && x in v.out && Give(x) !in ops
    ensures x in Run(v, ops).out
    decreases |ops|
  {
    if ops != [] {
      StepOk(v, ops[0]);
      assert ops[0] != Give(x);
      InUseUntilGivenBack(Step(v, ops[0]), ops[1..], x);
    }
  }

  /** No element is handed out twice: if a later request is granted `x` again, `x` came back in between. */
  lemma HandedOutOnce<T>(v: View<T>, first: Supply<T>, ops: seq<Op<T>>, second: Supply<T>, x: T)
    requires Ok(v) && FairRun(v, [Take(first)] + ops)
    requires Fair(Run(v, [Take(first)] + ops), Take(second))
    requires Get(v, first).1 == Some(x) == Get(Run(v, [Take(first)] + ops), second).1
    ensures Give(x) in ops
  {
    var v1 := Step(v, Take(first));
    assert ([Take(first)] + ops)[1..] == ops;
    GetOk(v, first);
    RunOk(v1, ops);
    if Give(x) !in ops {
      InUseUntilGivenBack(v1, ops, x);
      GetOk(Run(v1, ops), second);
    }
  }
}
