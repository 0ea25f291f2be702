/** The object pool on the heap: two intrusive stacks of buckets and their counters. */
module Pool {
  import opened Lists
  import opened Options
  import opened PoolView

  /** The memory of one element. */
  class Elt {
    constructor () {}
  }

  class Bucket {
    var data: Elt?
    const preallocated: bool
    var next: Bucket?

    constructor (preallocated: bool)
      ensures data == null && next == null && this.preallocated == preallocated
    {
      this.preallocated := preallocated;
      data, next := null, null;
    }
  }

  /** No element of the pool, kept or in use, has been freed. */
  ghost predicate FreedApart(v: View<Elt>, freed: set<Elt>) {
    forall x :: x in freed ==> x !in v.free && x !in v.out
  }

  lemma GetApart(v: View<Elt>, supply: Supply<Elt>, freed: set<Elt>)
    requires FreedApart(v, freed) && (supply.New? ==> supply.elem !in freed)
    ensures FreedApart(PoolView.Get(v, supply).0, freed)
  {
    if v.free != [] {
      assert v.free == [v.free[0]] + v.free[1..];
    }
  }

  lemma FreedMoreApart(v: View<Elt>, freed: set<Elt>, x: Elt)
    requires FreedApart(v, freed) && x !in v.free && x !in v.out
    ensures FreedApart(v, freed + {x})
  {
  }

  lemma TopTaken(v: View<Elt>, r: Elt, rest: seq<Elt>)
    requires v.free == [r] + rest
    ensures PoolView.Get(v, NoMemory) == (v.(free := rest, out := v.out + {r}), Some(r))
  {
  }

  lemma ReturnApart(v: View<Elt>, x: Elt, freed: set<Elt>)
    requires Ok(v) && FreedApart(v, freed) && x in v.out
    ensures FreedApart(PoolView.Return(v, x), freed)
    ensures |v.free| == v.buckets ==> FreedApart(PoolView.Return(v, x), freed + {x})
    ensures x !in freed
  {
    assert forall y :: y in [x] + v.free <==> y == x || y in v.free;
  }

  /** The list that starts at `head` consists of the buckets `s`, and ends. */
  ghost predicate Chain(head: Bucket?, s: seq<Bucket>)
    reads s`next
    decreases |s|
  {
    if s == [] then head == null else head == s[0] && Chain(s[0].next, s[1..])
  }

  lemma ChainTop(head: Bucket?, s: seq<Bucket>, i: nat)
    requires i <= |s| && Chain(head, s[i..])
    ensures head == null <==> i == |s|
    ensures i < |s| ==> head == s[i] && Chain(s[i].next, s[i + 1..])
  {
    if i < |s| {
      assert s[i..][1..] == s[i + 1..];
    }
  }

  /** What a stack of buckets keeps, top first. */
  ghost function Items(s: seq<Bucket>): seq<Elt?>
    reads s`data
    decreases |s|
  {
    if s == [] then [] else [s[0].data] + Items(s[1..])
  }

  lemma {:induction false} ItemsAt(s: seq<Bucket>)
    ensures |Items(s)| == |s| && forall i :: 0 <= i < |s| ==> Items(s)[i] == s[i].data
  {
    if s != [] {
      ItemsAt(s[1..]);
      assert forall i :: 0 < i < |s| ==> s[1..][i - 1] == s[i];
    }
  }

  /** A pointer that may be NULL. */
  function Given(r: Elt?): Option<Elt> {
    if r == null then None else Some(r)
  }

  /** From the i-th on the buckets still point at what they kept. */
  ghost predicate Remaining(s: seq<Bucket>, kept: seq<Elt>, i: nat)
    reads s`data
  {
    |kept| == |s| && forall k :: i <= k < |s| ==> s[k].data == kept[k]
  }

  lemma RemainingTop(s: seq<Bucket>, kept: seq<Elt>, i: nat)
    requires Remaining(s, kept, i) && i < |s|
    ensures |kept| == |s| && s[i].data == kept[i] && s[i] in SetOf(s)
  {
  }

  /** Buckets that keep nothing. */
  ghost predicate Vacant(s: seq<Bucket>)
    reads s`data
  {
    forall b :: b in s ==> b.data == null
  }

  function Loose(s: set<Bucket>): set<Bucket> {
    set b | b in s && !b.preallocated
  }

  lemma DistinctParts<T>(a: seq<T>, b: seq<T>)
    requires Distinct(a + b)
    ensures Distinct(a) && Distinct(b) && SetOf(a) !! SetOf(b)
  {
    assert forall i :: 0 <= i < |a| ==> (a + b)[i] == a[i];
    assert forall i :: 0 <= i < |b| ==> (a + b)[|a| + i] == b[i];
  }

  lemma NextOf<T>(s: seq<T>, i: nat)
    requires i < |s| && Distinct(s)
    ensures SetOf(s[..i + 1]) == SetOf(s[..i]) + {s[i]} && s[i] !in SetOf(s[..i])
    ensures s[..i + 1] == s[..i] + [s[i]]
  {
  }

  lemma FreedMore<T>(before: set<T>, s: set<T>, block: set<T>, x: T)
    ensures before + (s - block) + ({x} - block) == before + ((s + {x}) - block)
    ensures x !in before && x !in s ==> x !in before + (s - block)
  {
  }

  lemma LooseMore(s: set<Bucket>, b: Bucket)
    ensures Loose(s + {b}) == Loose(s) + (if b.preallocated then {} else {b})
    ensures b !in s ==> b !in Loose(s)
  {
  }

  /** What the allocator and the init callback answer when an element is made. */
  datatype Outcome = OutOfMemory | BadInit | Fine

  /** What the allocator answers when it is asked for the pool, for its buckets and for its block of elements. */
  datatype Memory = Memory(pool: bool, buckets: bool, block: bool)

  /** The sizes and callbacks that `PoolInit` refuses. */
  predicate Refused(size: nat, prealloc: nat, eltSize: nat, hasFree: bool) {
    (size != 0 && prealloc > size) || (size != 0 && eltSize == 0) || (eltSize != 0 && hasFree)
  }

  /** A pool with a limit must have room for its first elements and know their size; a free callback is for a pool that
      does not know it. */
  lemma RefusedExactly(size: nat, prealloc: nat, eltSize: nat, hasFree: bool)
    ensures Refused(size, prealloc, eltSize, hasFree) <==>
            (size > 0 && (prealloc > size || eltSize == 0)) || (hasFree && eltSize > 0)
  {
  }

  /** There is no memory for the pool, or for what a pool with a limit is made of. */
  predicate NoRoom(size: nat, memory: Memory) {
    !memory.pool || (size > 0 && (!memory.buckets || !memory.block))
  }

  /** One of the first elements cannot be made; those of a pool with a limit are in its block. */
  predicate Fails(size: nat, answer: Outcome) {
    answer.BadInit? || (size == 0 && answer.OutOfMemory?)
  }

  /** Buckets that keep nothing, but for the top one, which still keeps an element whose init callback has failed. */
  ghost predicate Holds(s: seq<Bucket>, extra: seq<Elt>)
    reads s`data
  {
    if extra == [] then Vacant(s) else |extra| == 1 && s != [] && s[0].data == extra[0] && Vacant(s[1..])
  }

  class Pool {
    const maxBuckets: nat
    const preallocated: nat
    const hasCleanup: bool
    /** The elements inside the block that the pool allocated at once. */
    const buffer: set<Elt>
    var allocatedElts: nat
    var allocStackSize: nat
    var allocStack: Bucket?
    var emptyStackSize: nat
    var emptyStack: Bucket?
    var outstanding: nat
    var maxOutstanding: nat

    ghost var full: seq<Bucket>      // the buckets on the alloc stack
    ghost var empty: seq<Bucket>     // the buckets on the empty stack
    ghost var out: set<Elt>          // the elements in use
    ghost var freed: set<Elt>        // the elements given back to the system
    ghost var cleaned: seq<Elt>      // the calls of the cleanup callback
    ghost var freedBuckets: set<Bucket>

    /** Both stacks are proper lists without a common bucket; the counters count them. */
    ghost predicate Linked()
      reads `allocStack, `allocStackSize, `emptyStack, `emptyStackSize, `full, `empty, full, empty
    {
      && Chain(allocStack, full) && Chain(emptyStack, empty)
      && Apart(full, empty)
      && allocStackSize == |full| && emptyStackSize == |empty|
      && (forall b :: b in full ==> b.data != null)
      && Vacant(empty)
    }

    ghost function Kept(): seq<Elt>
      reads `allocStack, `allocStackSize, `emptyStack, `emptyStackSize, `full, `empty, full, empty
      requires Linked()
    {
      ItemsAt(full);
      assert forall i :: 0 <= i < |full| ==> full[i] in full;
      Items(full)
    }

    ghost function Meaning(): View<Elt>
      reads `allocStack, `allocStackSize, `emptyStack, `emptyStackSize, `full, `empty, `out, full, empty
      requires Linked()
    {
      View(maxBuckets, |full| + |empty|, Kept(), out)
    }

    ghost predicate Valid()
      reads this, full, empty
    {
      && Linked()
      && Ok(Meaning())
      && freedBuckets == {}
      && outstanding == |out| && allocatedElts == allocStackSize + outstanding && outstanding <= maxOutstanding
      && FreedApart(Meaning(), freed)
    }

    constructor (size: nat, preallocated: nat, hasCleanup: bool, buffer: set<Elt>)
      ensures Linked() && full == [] && empty == [] && out == {} && freed == {} && cleaned == [] && freedBuckets == {}
      ensures maxBuckets == size && this.preallocated == preallocated && this.buffer == buffer
      ensures this.hasCleanup == hasCleanup && allocatedElts == 0 && outstanding == 0 && maxOutstanding == 0
    {
      maxBuckets, this.preallocated, this.hasCleanup, this.buffer := size, preallocated, hasCleanup, buffer;
      allocatedElts, allocStackSize, emptyStackSize, outstanding, maxOutstanding := 0, 0, 0, 0, 0;
      allocStack, emptyStack := null, null;
      full, empty, out, freed, cleaned, freedBuckets := [], [], {}, {}, [], {};
    }

    /** A new bucket from the pool's block, on the empty stack. */
    method AddEmpty()
      requires Linked()
      modifies `emptyStack, `emptyStackSize, `empty
      ensures Linked() && Kept() == old(Kept())
      ensures |empty| == |old(empty)| + 1 && fresh(empty[0]) && empty[1..] == old(empty)
    {
      var pb := new Bucket(true);
      pb.next := emptyStack;
      emptyStack := pb;
      emptyStackSize := emptyStackSize + 1;
      AddedApart(full, empty, pb);
      ghost var below := empty;
      empty := [pb] + empty;
      assert empty[1..] == below;
    }

    /** A new bucket of its own with an element in it, on the alloc stack. */
    method AddFull(x: Elt)
      requires Linked()
      modifies `allocStack, `allocStackSize, `full
      ensures Linked() && Kept() == [x] + old(Kept())
      ensures |full| == |old(full)| + 1 && fresh(full[0]) && full[1..] == old(full)
    {
      ItemsAt(full);
      var pb := new Bucket(false);
      pb.data := x;
      pb.next := allocStack;
      allocStack := pb;
      allocStackSize := allocStackSize + 1;
      ApartEither(full, empty);
      AddedApart(empty, full, pb);
      ghost var below := full;
      full := [pb] + full;
      ApartEither(empty, full);
      assert full[1..] == below;
    }

    /** The block of elements that the pool allocates at once. */
    static method NewBlock(n: nat) returns (block: seq<Elt>)
      ensures |block| == n && Distinct(block) && forall x :: x in block ==> fresh(x)
    {
      block := [];
      while |block| < n
        invariant |block| <= n && Distinct(block) && forall x :: x in block ==> fresh(x)
      {
        var x := new Elt();
        block := block + [x];
      }
    }

    /** `PoolInit`. When something fails the pool made so far is freed again: `given` are the elements it had, the
        last one first, and `bad` is the one whose init callback has failed, if that was it. The elements are cleaned
        up once, except that a bad element of a pool with a limit is cleaned up twice, first and last. */
    static method Init(size: nat, prealloc: nat, eltSize: nat, hasCleanup: bool, hasFree: bool, memory: Memory,
                       answer: nat -> Outcome)
      returns (p: Pool?, ghost made: Pool?, ghost given: seq<Elt>, ghost bad: seq<Elt>)
      ensures p == null <==> Refused(size, prealloc, eltSize, hasFree) || NoRoom(size, memory)
                             || exists k: nat :: k < prealloc && Fails(size, answer(k))
      ensures p != null ==>
                && fresh(p) && p.Valid() && p.hasCleanup == hasCleanup
                && p.Meaning().limit == size && p.Meaning().buckets == (if size > 0 then size else prealloc)
                && |p.Meaning().free| == prealloc && p.Meaning().out == {} && p.freed == {} && p.cleaned == []
                && (forall x :: x in p.Meaning().free ==> fresh(x)) && (forall b :: b in p.full + p.empty ==> fresh(b))
      ensures p == null && made == null ==> Refused(size, prealloc, eltSize, hasFree) || !memory.pool
      ensures p == null && made != null ==>
                && fresh(made) && made.Gone(given, bad, size)
                && (NoRoom(size, memory) ==> given == bad == [])
                && (!NoRoom(size, memory) ==> made.StoppedAt(given, bad, size, prealloc, answer))
    {
      p, made, given, bad := null, null, [], [];
      if Refused(size, prealloc, eltSize, hasFree) || !memory.pool {
        return;
      }
      if size > 0 {
        p, made, given, bad := InitLimited(size, prealloc, hasCleanup, memory, answer);
      } else {
        p, made, given, bad := InitUnlimited(prealloc, hasCleanup, answer);
      }
    }

    /** A pool that has been given up: everything has been freed, and the elements have been cleaned up. */
    ghost predicate Gone(given: seq<Elt>, bad: seq<Elt>, size: nat)
      reads this
    {
      && allocStack == null && emptyStack == null && freed == SetOf(bad + given) - buffer
      && cleaned == (if hasCleanup then bad + given + (if size > 0 then bad else []) else [])
      && freedBuckets == Loose(SetOf(full) + SetOf(empty)) && Distinct(bad + given)
      && (size > 0 ==> freed == {}) && (size == 0 ==> buffer == {})
    }

    /** The first failure was that of the element behind the `given` ones. */
    ghost predicate StoppedAt(given: seq<Elt>, bad: seq<Elt>, size: nat, prealloc: nat, answer: nat -> Outcome) {
      && |given| < prealloc && Fails(size, answer(|given|))
         && (forall k: nat :: k < |given| ==> !Fails(size, answer(k)))
      && (|bad| == if answer(|given|).BadInit? then 1 else 0)
    }

    static method InitLimited(size: nat, prealloc: nat, hasCleanup: bool, memory: Memory, answer: nat -> Outcome)
      returns (p: Pool?, ghost made: Pool, ghost given: seq<Elt>, ghost bad: seq<Elt>)
      requires prealloc <= size && size > 0 && memory.pool
      ensures p == null <==> NoRoom(size, memory) || exists k: nat :: k < prealloc && Fails(size, answer(k))
      ensures p != null ==>
                && fresh(p) && p.Valid() && p.hasCleanup == hasCleanup && p.Untouched()
                && p.maxBuckets == size == |p.full| + |p.empty| && |p.full| == |p.Kept()| == prealloc
                && (forall x :: x in p.Kept() ==> fresh(x)) && (forall b :: b in p.full + p.empty ==> fresh(b))
      ensures p == null ==>
                && fresh(made) && made.Gone(given, bad, size)
                && (NoRoom(size, memory) ==> given == bad == [])
                && (!NoRoom(size, memory) ==> made.StoppedAt(given, bad, size, prealloc, answer))
    {
      hide Pool.Linked, Pool.Kept, Apart, Pool.Doomed, Pool.Gone;
      var block := [];
      if memory.buckets && memory.block {
        block := NewBlock(prealloc);
      }
      p := new Pool(size, prealloc, hasCleanup, SetOf(block));
      made, given, bad := p, [], [];
      p.NothingKept();
      if !memory.buckets {
        p.TearDown([], []);
        p.GoneEmpty(size);
        return null, made, given, bad;
      }
      p.Populate(size);
      if !memory.block {
        p.NothingKept();
        p.TearDown([], []);
        p.GoneEmpty(size);
        return null, made, given, bad;
      }
      var ok;
      ok, given := p.Fill(block, answer);
      if ok {
        p.LinkedSizes();
        p.KeptSize();
      } else {
        bad := [block[|given|]];
        p.TearDown(given, bad);
        p.GoneLimited(given, bad, size);
        p := null;
      }
    }

    /** The buckets of a pool with a limit. */
    method Populate(size: nat)
      requires Linked() && empty == []
      modifies `emptyStack, `emptyStackSize, `empty
      ensures Linked() && |empty| == size && Kept() == old(Kept()) && forall b :: b in empty ==> fresh(b)
    {
      hide Linked, Kept;
      var i := 0;
      while i < size
        invariant Linked() && i == |empty| <= size && Kept() == old(Kept())
        invariant forall b :: b in empty ==> fresh(b)
      {
        AddEmpty();
        assert empty == [empty[0]] + empty[1..];
        i := i + 1;
      }
    }

    /** The first elements of a pool with a limit, as far as the init callback succeeds. */
    method Fill(block: seq<Elt>, answer: nat -> Outcome) returns (ok: bool, ghost given: seq<Elt>)
      requires Linked() && full == [] && |block| <= |empty| && Distinct(block) && SetOf(block) == buffer
      requires allocatedElts == 0 && Untouched()
      modifies `allocStack, `allocStackSize, `emptyStack, `emptyStackSize, `full, `empty, `allocatedElts, `cleaned,
               SetOf(empty)
      ensures |full| + |empty| == |old(empty)| && forall b :: b in full + empty ==> b in old(empty)
      ensures ok <==> forall k: nat :: k < |block| ==> !answer(k).BadInit?
      ensures ok ==> Linked() && |full| == |block| == allocatedElts && Untouched()
                     && Distinct(Kept()) && forall x :: x in Kept() ==> x in block
      ensures !ok ==>
                && |given| < |block| && answer(|given|).BadInit?
                   && (forall k: nat :: k < |given| ==> !answer(k).BadInit?)
                && Doomed(given, [block[|given|]]) && Distinct([block[|given|]] + given) && freed == {}
                && SetOf(given) <= buffer && cleaned == if hasCleanup then [block[|given|]] else []
    {
      hide Linked, Kept, Doomed;
      var i := 0;
      KeptSize();
      given := [];
      while i < |block|
        invariant Linked() && i == |full| <= |block| && |full| + |empty| == |old(empty)| && allocatedElts == i
                  && Untouched()
        invariant given == Kept() && |given| == i && Distinct(given) && forall x :: x in given ==> x in block[..i]
        invariant (forall b :: b in full ==> b in old(empty)) && forall b :: b in empty ==> b in old(empty)
        invariant forall k: nat :: k < i ==> !answer(k).BadInit?
      {
        KeptSize();
        NextOf(block, i);
        if answer(i).BadInit? {
          BadNext(block[i]);
          return false, given;
        }
        Keep(block[i]);
        given := [block[i]] + given;
        allocatedElts := allocatedElts + 1;
        i := i + 1;
      }
      return true, given;
    }

    /** The init callback has failed for the next element of the block: it is cleaned up, and stays in its bucket. */
    method BadNext(x: Elt)
      requires Linked() && emptyStack != null && x in buffer && Distinct(Kept()) && SetOf(Kept()) !! freed
               && freedBuckets == {}
      requires x !in freed && x !in Kept()
      modifies `cleaned, SetOf(empty)
      ensures Doomed(old(Kept()), [x]) && cleaned == if hasCleanup then old(cleaned) + [x] else old(cleaned)
    {
      ItemsAt(full);
      ghost var kept := Kept();
      emptyStack.data := x;
      Cleanup(x);
    }

    static method InitUnlimited(prealloc: nat, hasCleanup: bool, answer: nat -> Outcome)
      returns (p: Pool?, ghost made: Pool, ghost given: seq<Elt>, ghost bad: seq<Elt>)
      ensures p == null <==> exists k: nat :: k < prealloc && Fails(0, answer(k))
      ensures p != null ==>
                && fresh(p) && p.Valid() && p.hasCleanup == hasCleanup && p.Untouched()
                && p.maxBuckets == 0 && p.empty == [] && |p.full| == |p.Kept()| == prealloc
                && (forall x :: x in p.Kept() ==> fresh(x)) && (forall b :: b in p.full ==> fresh(b))
      ensures p == null ==> fresh(made) && made.Gone(given, bad, 0) && made.StoppedAt(given, bad, 0, prealloc, answer)
    {
      hide Pool.Linked, Pool.Kept, Apart, Pool.Doomed, Pool.Gone;
      p := new Pool(0, prealloc, hasCleanup, {});
      made, given, bad := p, [], [];
      var i := 0;
      p.KeptSize();
      while i < prealloc
        invariant p != null && made == p && fresh(p) && p.Linked() && i == |p.full| <= prealloc && p.empty == []
        invariant p.Untouched() && p.allocatedElts == i && p.maxBuckets == 0 && p.buffer == {}
                  && p.hasCleanup == hasCleanup
        invariant Distinct(given) && |given| == i && given == p.Kept() && bad == []
        invariant (forall x :: x in given ==> fresh(x)) && (forall b :: b in p.full ==> fresh(b))
        invariant forall k: nat :: k < i ==> !Fails(0, answer(k))
      {
        if !answer(i).Fine? {
          bad := p.FailToMake(answer(i), given);
          return null, made, given, bad;
        }
        var x := new Elt();
        assert x !in given;
        p.AddFull(x);
        given := [x] + given;
        assert p.full == [p.full[0]] + p.full[1..];
        p.allocatedElts := p.allocatedElts + 1;
        i := i + 1;
      }
      p.LinkedSizes();
      p.KeptSize();
    }

    /** An element of a pool without a limit could not be made, or not be initialized. */
    method FailToMake(answer: Outcome, ghost given: seq<Elt>) returns (ghost bad: seq<Elt>)
      requires Linked() && given == Kept() && Distinct(given) && buffer == {} && Untouched() && !answer.Fine?
      modifies `allocStack, `emptyStack, `freed, `cleaned, `freedBuckets, SetOf(full)`data, SetOf(empty)`data
      ensures Gone(given, bad, 0) && |bad| == if answer.BadInit? then 1 else 0
    {
      hide Linked, Kept, Gone;
      bad := [];
      if answer.BadInit? {
        var x := new Elt();
        assert x !in given;
        Cleanup(x);
        Free(x);
        bad := [x];
      }
      GiveUpFilling(given, bad);
    }

    /** The pool is freed after such a failure. */
    method GiveUpFilling(ghost given: seq<Elt>, ghost bad: seq<Elt>)
      requires Linked() && given == Kept() && Distinct(bad + given) && buffer == {} && freedBuckets == {}
      requires freed == SetOf(bad) && cleaned == if hasCleanup then bad else []
      modifies `allocStack, `emptyStack, `freed, `cleaned, `freedBuckets, SetOf(full)`data, SetOf(empty)`data
      ensures Gone(given, bad, 0)
    {
      hide Kept, Loose;
      DistinctParts(bad, given);
      DoomedNow(given);
      TearDown(given, []);
      assert bad + given + [] == bad + given;
    }

    lemma DoomedNow(given: seq<Elt>)
      requires Linked() && given == Kept() && Distinct(given) && SetOf(given) !! freed && freedBuckets == {}
      ensures Doomed(given, [])
    {
      ItemsAt(full);
    }

    lemma NothingKept()
      requires Linked() && full == [] && freed == {} && freedBuckets == {}
      ensures Doomed([], []) && Kept() == []
    {
    }

    lemma GoneEmpty(size: nat)
      requires allocStack == null && emptyStack == null && freed == {} + (SetOf<Elt>([]) - buffer) && size > 0
      requires cleaned == (if hasCleanup then [] + [] + [] else []) && freedBuckets == Loose(SetOf(full) + SetOf(empty))
      ensures Gone([], [], size)
    {
    }

    lemma GoneLimited(given: seq<Elt>, bad: seq<Elt>, size: nat)
      requires allocStack == null && emptyStack == null && freed == {} + (SetOf(given) - buffer) && size > 0
      requires SetOf(given) <= buffer && SetOf(bad) <= buffer && Distinct(bad + given)
      requires cleaned == (if hasCleanup then bad + given + bad else [])
               && freedBuckets == Loose(SetOf(full) + SetOf(empty))
      ensures Gone(given, bad, size)
    {
      assert forall x :: x in bad + given ==> x in SetOf(bad) || x in SetOf(given);
    }

    /** Nothing has been lent or freed yet. */
    ghost predicate Untouched()
      reads `out, `freed, `cleaned, `freedBuckets, `outstanding, `maxOutstanding
    {
      out == {} && freed == {} && cleaned == [] && freedBuckets == {} && outstanding == 0 && maxOutstanding == 0
    }

    /** `PoolDataPreAllocated` */
    predicate PreAllocated(x: Elt) {
      x in buffer
    }

    /** The cleanup callback, if there is one. */
    method Cleanup(x: Elt)
      modifies this`cleaned
      ensures cleaned == if hasCleanup then old(cleaned) + [x] else old(cleaned)
    {
      if hasCleanup {
        cleaned := cleaned + [x];
      }
    }

    /** `Free` or `free`; an element that was freed before must not come here. */
    method Free(x: Elt)
      requires x !in freed
      modifies this`freed
      ensures freed == old(freed) + {x}
    {
      freed := freed + {x};
    }

    /** A request would need a new element, and one may be made. */
    predicate NeedsNew()
      reads this
    {
      allocStack == null && (maxBuckets == 0 || allocatedElts < maxBuckets)
    }

    /** The branch of `PoolGet` that finds an element in the pool. */
    method TakeKept() returns (r: Elt)
      requires Linked() && allocStack != null
      modifies `allocStack, `allocStackSize, `emptyStack, `emptyStackSize, `full, `empty, SetOf(full)
      ensures Linked() && full == old(full[1..]) && empty == [old(full[0])] + old(empty)
      ensures old(Kept()) == [r] + Kept()
    {
      ItemsAt(full);
      var pb := allocStack;
      ghost var rest, below := full[1..], empty;
      MovedApart(full, empty);
      // pull from the alloc list
      allocStack := pb.next;
      allocStackSize := allocStackSize - 1;
      // put in the empty list
      pb.next := emptyStack;
      emptyStack := pb;
      emptyStackSize := emptyStackSize + 1;
      r := pb.data;
      pb.data := null;
      full, empty := rest, [pb] + below;
      assert empty[1..] == below;
      assert Chain(allocStack, full) && Chain(emptyStack, empty);
    }

    /** The branch of `PoolReturn` that finds a bucket. */
    method Keep(x: Elt)
      requires Linked() && emptyStack != null
      modifies `allocStack, `allocStackSize, `emptyStack, `emptyStackSize, `full, `empty, SetOf(empty)
      ensures Linked() && full == [old(empty[0])] + old(full) && empty == old(empty[1..])
      ensures Kept() == [x] + old(Kept())
    {
      ItemsAt(full);
      var pb := emptyStack;
      ghost var rest, below := empty[1..], full;
      ApartEither(full, empty);
      MovedApart(empty, full);
      // pull from the empty list
      emptyStack := pb.next;
      emptyStackSize := emptyStackSize - 1;
      // put in the alloc list
      pb.next := allocStack;
      allocStack := pb;
      allocStackSize := allocStackSize + 1;
      pb.data := x;
      full, empty := [pb] + below, rest;
      ApartEither(empty, full);
      assert full[1..] == below;
      assert Chain(allocStack, full) && Chain(emptyStack, empty);
    }

    lemma KeptSize()
      requires Linked()
      ensures |Kept()| == |full|
      ensures allocStack == null <==> full == []
      ensures emptyStack == null <==> empty == []
    {
      ItemsAt(full);
    }

    lemma LinkedSizes()
      requires Linked()
      ensures allocStackSize == |full| && emptyStackSize == |empty|
    {
    }

    /** One more element in use. */
    method Lend(x: Elt)
      requires outstanding == |out| && x !in out && outstanding <= maxOutstanding
      modifies this`outstanding, this`maxOutstanding, this`out
      ensures outstanding == |out| && outstanding == old(outstanding) + 1 && out == old(out) + {x}
      ensures maxOutstanding == if outstanding > old(maxOutstanding) then outstanding else old(maxOutstanding)
    {
      out := out + {x};
      outstanding := outstanding + 1;
      if outstanding > maxOutstanding {
        maxOutstanding := outstanding;
      }
    }

    /** The new element is handed out. */
    method LendNew(pitem: Elt)
      requires Valid() && NeedsNew() && pitem !in Kept() && pitem !in out && pitem !in freed
      modifies `allocatedElts, `outstanding, `maxOutstanding, `out
      ensures Valid() && (Meaning(), Some(pitem)) == PoolView.Get(old(Meaning()), New(pitem))
      ensures maxOutstanding == if outstanding > old(maxOutstanding) then outstanding else old(maxOutstanding)
    {
      hide Linked, Kept, Ok, FreedApart;
      KeptSize();
      LinkedSizes();
      GetOk(Meaning(), New(pitem));
      GetApart(Meaning(), New(pitem), freed);
      allocatedElts := allocatedElts + 1;
      Lend(pitem);
    }

    /** One more element has been cleaned up and freed. */
    ghost predicate GaveUp(freed0: set<Elt>, cleaned0: seq<Elt>)
      reads `freed, `cleaned
    {
      exists x :: x in freed
        && x !in freed0 && freed == freed0 + {x} && cleaned == if hasCleanup then cleaned0 + [x] else cleaned0
    }

    /** The init callback has failed: the new element is cleaned up and freed. */
    method GiveUp(pitem: Elt)
      requires Valid() && pitem !in Kept() && pitem !in out && pitem !in freed
      modifies `freed, `cleaned
      ensures Valid() && freed == old(freed) + {pitem}
      ensures cleaned == if hasCleanup then old(cleaned) + [pitem] else old(cleaned)
    {
      hide Linked, Kept, Ok, FreedApart;
      FreedMoreApart(Meaning(), freed, pitem);
      Cleanup(pitem);
      Free(pitem);
    }

    /** The branch of `PoolGet` that makes a new element. `answer` is what the system says, `supply` what it gives. */
    method Make(answer: Outcome) returns (r: Elt?, ghost supply: Supply<Elt>)
      requires Valid() && NeedsNew()
      modifies `allocatedElts, `outstanding, `maxOutstanding, `out, `freed, `cleaned
      ensures Valid()
      ensures supply.New? <==> answer.Fine?
      ensures supply.New? ==> fresh(supply.elem)
      ensures (Meaning(), Given(r)) == PoolView.Get(old(Meaning()), supply)
      ensures maxOutstanding == if outstanding > old(maxOutstanding) then outstanding else old(maxOutstanding)
      ensures if supply.InitFailed? then GaveUp(old(freed), old(cleaned))
              else freed == old(freed) && cleaned == old(cleaned)
      ensures forall x :: x in freed - old(freed) ==> fresh(x)
    {
      KeptSize();
      hide Linked, Kept, Ok, FreedApart;
      if answer.OutOfMemory? {
        return null, NoMemory;
      }
      ghost var kept := Kept();
      var pitem := new Elt();
      assert pitem !in kept;
      if answer.BadInit? {
        GiveUp(pitem);
        return null, InitFailed;
      }
      LendNew(pitem);
      return pitem, New(pitem);
    }

    /** An element from the pool. */
    method HandOut() returns (r: Elt)
      requires Valid() && allocStack != null
      modifies `allocStack, `allocStackSize, `emptyStack, `emptyStackSize, `full, `empty, SetOf(full)
      modifies `outstanding, `maxOutstanding, `out
      ensures Valid() && (Meaning(), Some(r)) == PoolView.Get(old(Meaning()), NoMemory)
      ensures maxOutstanding == if outstanding > old(maxOutstanding) then outstanding else old(maxOutstanding)
    {
      hide Linked, Kept, Ok, FreedApart, PoolView.Get, SetOf;
      ghost var v := Meaning();
      KeptSize();
      LinkedSizes();
      GetOk(v, NoMemory);
      GetApart(v, NoMemory, freed);
      r := TakeKept();
      TopTaken(v, r, Kept());
      Lend(r);
      LinkedSizes();
    }

    /** `PoolGet`. `answer` is what asking the system for a new element would come to; `supply` is the
        element it gave, if it was asked. */
    method Get(answer: Outcome) returns (r: Elt?, ghost supply: Supply<Elt>)
      requires Valid()
      modifies `allocStack, `allocStackSize, `emptyStack, `emptyStackSize, `full, `empty, SetOf(full)
      modifies `allocatedElts, `outstanding, `maxOutstanding, `out, `freed, `cleaned
      ensures Valid()
      ensures supply.New? <==> answer.Fine? && old(NeedsNew())
      ensures supply.New? ==> fresh(supply.elem)
      ensures (Meaning(), Given(r)) == PoolView.Get(old(Meaning()), supply)
      ensures maxOutstanding == if outstanding > old(maxOutstanding) then outstanding else old(maxOutstanding)
      ensures if supply.InitFailed? then GaveUp(old(freed), old(cleaned))
              else freed == old(freed) && cleaned == old(cleaned)
      ensures forall x :: x in freed - old(freed) ==> fresh(x)
    {
      hide Linked, Kept, Ok, FreedApart, SetOf;
      KeptSize();
      if allocStack != null {
        supply := NoMemory;
        r := HandOut();
      } else if maxBuckets == 0 || allocatedElts < maxBuckets {
        r, supply := Make(answer);
      } else {
        return null, NoMemory;
      }
    }

    /** The end of one element: cleanup, and back to the system unless the pool's block holds it. */
    method Discard(x: Elt)
      requires x !in freed
      modifies `freed, `cleaned
      ensures freed == old(freed) + ({x} - buffer)
      ensures cleaned == if hasCleanup then old(cleaned) + [x] else old(cleaned)
    {
      Cleanup(x);
      if !PreAllocated(x) {
        Free(x);
      }
    }

    /** The branch of `PoolReturn` that finds no bucket. */
    method Drop(x: Elt)
      requires Valid() && x in out && emptyStack == null
      modifies `allocatedElts, `outstanding, `out, `freed, `cleaned
      ensures Valid()
      ensures Meaning() == PoolView.Return(old(Meaning()), x)
      ensures freed == if PreAllocated(x) then old(freed) else old(freed) + {x}
      ensures cleaned == if hasCleanup then old(cleaned) + [x] else old(cleaned)
    {
      hide Linked, Kept, Ok, SetOf;
      KeptSize();
      ReturnOk(Meaning(), x);
      allocatedElts, outstanding, out := allocatedElts - 1, outstanding - 1, out - {x};
      Discard(x);
    }

    /** `PoolReturn`. A pool with a limit frees nothing: it always has a bucket left. */
    method Return(x: Elt)
      requires Valid() && x in out
      modifies `allocStack, `allocStackSize, `emptyStack, `emptyStackSize, `full, `empty, SetOf(empty)
      modifies `allocatedElts, `outstanding, `out, `freed, `cleaned
      ensures Valid()
      ensures Meaning() == PoolView.Return(old(Meaning()), x)
      ensures maxBuckets > 0 ==> old(emptyStack) != null
      ensures if old(emptyStack) != null then freed == old(freed) && cleaned == old(cleaned)
              else && freed == (if PreAllocated(x) then old(freed) else old(freed) + {x})
                   && cleaned == if hasCleanup then old(cleaned) + [x] else old(cleaned)
    {
      hide Linked, Kept, Ok, FreedApart, SetOf;
      KeptSize();
      LinkedSizes();
      ReturnOk(Meaning(), x);
      ReturnApart(Meaning(), x, freed);
      if emptyStack == null {
        Drop(x);
      } else {
        Keep(x);
        LinkedSizes();
        outstanding, out := outstanding - 1, out - {x};
      }
    }

    lemma KeptFacts()
      requires Valid()
      ensures Doomed(Kept(), []) && SetOf(Kept()) !! out
    {
      ItemsAt(full);
    }

    /** All that is left to do is to free it: the alloc stack keeps `kept`, and the top of the empty stack possibly
        `extra`. */
    ghost predicate Doomed(kept: seq<Elt>, extra: seq<Elt>)
      reads `allocStack, `emptyStack, `full, `empty, `freed, `freedBuckets, full, empty
    {
      && Chain(allocStack, full) && Chain(emptyStack, empty) && Apart(full, empty)
      && Remaining(full, kept, 0) && Distinct(kept) && SetOf(kept) !! freed && freedBuckets == {}
      && Holds(empty, extra) && SetOf(extra) <= buffer && SetOf(extra) !! freed && SetOf(extra) !! SetOf(kept)
    }

    /** The end of one bucket. */
    method FreeBucket(b: Bucket)
      requires b !in freedBuckets
      modifies `freedBuckets
      ensures freedBuckets == old(freedBuckets) + (if b.preallocated then {} else {b})
    {
      if !b.preallocated {
        freedBuckets := freedBuckets + {b};
      }
    }

    /** `PoolFree`: every element in the pool is cleaned up and freed exactly once, every bucket too,
        and the elements in use are left alone. */
    method Destroy()
      requires Valid()
      modifies this, full, empty
      ensures allocStack == null && emptyStack == null
      ensures freed == old(freed) + (SetOf(old(Kept())) - buffer)
      ensures cleaned == if hasCleanup then old(cleaned) + old(Kept()) else old(cleaned)
      ensures freedBuckets == Loose(SetOf(old(full)) + SetOf(old(empty)))
      ensures out == old(out) && forall x :: x in out ==> x !in freed - old(freed)
    {
      KeptFacts();
      hide Apart, Valid, Linked, Doomed, Loose;
      ghost var kept := Kept();
      TearDown(kept, []);
      assert kept + [] == kept;
    }

    /** The two loops of `PoolFree`, also for a pool that has not been completed. */
    method TearDown(ghost kept: seq<Elt>, ghost extra: seq<Elt>)
      requires Doomed(kept, extra)
      modifies `allocStack, `emptyStack, `freed, `cleaned, `freedBuckets, SetOf(full)`data, SetOf(empty)`data
      ensures allocStack == null && emptyStack == null && freedBuckets == Loose(SetOf(full) + SetOf(empty))
      ensures freed == old(freed) + (SetOf(kept) - buffer)
      ensures cleaned == if hasCleanup then old(cleaned) + kept + extra else old(cleaned)
    {
      hide Loose;
      DestroyFull(kept, extra);
      DestroyEmpty(extra);
    }

    /** The first `n` elements and buckets have been discarded. */
    ghost predicate Discarded(n: nat, kept: seq<Elt>, freed0: set<Elt>, cleaned0: seq<Elt>)
      requires n <= |kept| == |full|
      reads `freed, `cleaned, `freedBuckets, `full
    {
      && freed == freed0 + (SetOf(kept[..n]) - buffer)
      && cleaned == (if hasCleanup then cleaned0 + kept[..n] else cleaned0)
      && freedBuckets == Loose(SetOf(full[..n]))
    }

    method DiscardNext(x: Elt, pb: Bucket, ghost n: nat, ghost kept: seq<Elt>, ghost freed0: set<Elt>,
                       ghost cleaned0: seq<Elt>)
      requires n < |kept| == |full| && Discarded(n, kept, freed0, cleaned0) && x == kept[n] && pb == full[n]
      requires Distinct(kept) && Distinct(full) && SetOf(kept) !! freed0
      modifies `freed, `cleaned, `freedBuckets
      ensures Discarded(n + 1, kept, freed0, cleaned0)
    {
      assert x in SetOf(kept);
      hide Distinct, SetOf, Loose;
      NextOf(kept, n);
      NextOf(full, n);
      FreedMore(freed0, SetOf(kept[..n]), buffer, x);
      LooseMore(SetOf(full[..n]), pb);
      Discard(x);
      FreeBucket(pb);
    }

    /** The bucket no longer points at its element. */
    method Clear(pb: Bucket, ghost kept: seq<Elt>, ghost i: nat, ghost extra: seq<Elt>)
      requires i < |full| && pb == full[i] && Remaining(full, kept, i) && Apart(full, empty) && Holds(empty, extra)
      modifies pb`data
      ensures Remaining(full, kept, i + 1) && Holds(empty, extra)
    {
      assert pb in full && pb !in empty;
      assert extra != [] && empty != [] ==> forall b :: b in empty[1..] ==> b in empty;
      pb.data := null;
    }

    /** In the middle of the loop over the alloc stack: the first `i` buckets are behind it. */
    ghost predicate Emptying(i: nat, kept: seq<Elt>, extra: seq<Elt>, freed0: set<Elt>, cleaned0: seq<Elt>)
      reads `allocStack, `freed, `cleaned, `freedBuckets, `full, `empty, full`data, full`next, empty`data
    {
      && i <= |full| == |kept| && Chain(allocStack, full[i..]) && Holds(empty, extra)
      && Remaining(full, kept, i)
      && Discarded(i, kept, freed0, cleaned0)
      && Distinct(kept) && Apart(full, empty) && SetOf(kept) !! freed0
    }

    /** One pass of that loop. */
    method DiscardTop(ghost i: nat, ghost kept: seq<Elt>, ghost extra: seq<Elt>, ghost freed0: set<Elt>,
                      ghost cleaned0: seq<Elt>)
      requires Emptying(i, kept, extra, freed0, cleaned0) && allocStack != null
      modifies `allocStack, `freed, `cleaned, `freedBuckets, SetOf(full)`data
      ensures Emptying(i + 1, kept, extra, freed0, cleaned0)
    {
      ApartDistinct(full, empty);
      hide Loose, Chain, Discarded, Remaining, Holds, Vacant, Distinct, SetOf, Apart;
      ChainTop(allocStack, full, i);
      RemainingTop(full, kept, i);
      var pb := allocStack;
      allocStack := pb.next;
      DiscardNext(pb.data, pb, i, kept, freed0, cleaned0);
      Clear(pb, kept, i, extra);
    }

    method DestroyFull(ghost kept: seq<Elt>, ghost extra: seq<Elt>)
      requires Doomed(kept, extra)
      modifies `allocStack, `freed, `cleaned, `freedBuckets, SetOf(full)`data
      ensures allocStack == null && Chain(emptyStack, empty) && Apart(full, empty) && Holds(empty, extra)
      ensures freed == old(freed) + (SetOf(kept) - buffer)
      ensures cleaned == if hasCleanup then old(cleaned) + kept else old(cleaned)
      ensures freedBuckets == Loose(SetOf(full))
      ensures SetOf(extra) <= buffer && SetOf(extra) !! freed
    {
      ghost var i, freed0, cleaned0 := 0, freed, cleaned;
      NothingDiscarded(kept);
      assert full[0..] == full;
      hide Apart, Loose, Items, Chain, Discarded, Remaining, Holds, Vacant, Distinct;
      while allocStack != null
        invariant Emptying(i, kept, extra, freed0, cleaned0)
        decreases |full| - i
      {
        DiscardTop(i, kept, extra, freed0, cleaned0);
        i := i + 1;
      }
      ChainTop(allocStack, full, i);
      AllDiscarded(kept, freed0, cleaned0);
    }

    lemma NothingDiscarded(kept: seq<Elt>)
      requires |kept| == |full| && freedBuckets == {}
      ensures Discarded(0, kept, freed, cleaned)
    {
    }

    lemma AllDiscarded(kept: seq<Elt>, freed0: set<Elt>, cleaned0: seq<Elt>)
      requires |kept| == |full| && Discarded(|full|, kept, freed0, cleaned0)
      ensures freed == freed0 + (SetOf(kept) - buffer) && freedBuckets == Loose(SetOf(full))
      ensures cleaned == if hasCleanup then cleaned0 + kept else cleaned0
    {
      assert full[..|full|] == full && kept[..|full|] == kept;
    }

    /** In the middle of the loop over the empty stack: the first `i` buckets are behind it. */
    ghost predicate Unstacking(i: nat, extra: seq<Elt>, freed0: set<Elt>, cleaned0: seq<Elt>)
      reads `emptyStack, `freed, `cleaned, `freedBuckets, `full, `empty, empty`data, empty`next
    {
      && i <= |empty| && Chain(emptyStack, empty[i..]) && Apart(full, empty)
      && (if i == 0 then Holds(empty, extra) else Vacant(empty[1..]))
      && freed == freed0 && SetOf(extra) <= buffer && SetOf(extra) !! freed
      && cleaned == (if hasCleanup && i > 0 then cleaned0 + extra else cleaned0)
      && freedBuckets == Loose(SetOf(full) + SetOf(empty[..i]))
    }

    /** One pass of that loop. */
    method UnstackTop(ghost i: nat, ghost extra: seq<Elt>, ghost freed0: set<Elt>, ghost cleaned0: seq<Elt>)
      requires Unstacking(i, extra, freed0, cleaned0) && emptyStack != null
      modifies `emptyStack, `freed, `cleaned, `freedBuckets, SetOf(empty)`data
      ensures Unstacking(i + 1, extra, freed0, cleaned0)
    {
      ChainTop(emptyStack, empty, i);
      ApartEither(full, empty);
      ApartDistinct(empty, full);
      NextLoose(i);
      assert empty[i] in SetOf(empty);
      hide Loose, Holds, Vacant, Apart, Distinct, SetOf, Chain;
      var pb := emptyStack;
      emptyStack := pb.next;
      ClearEmpty(pb, i, extra);
      FreeBucket(pb);
    }

    method DestroyEmpty(ghost extra: seq<Elt>)
      requires Chain(emptyStack, empty) && Apart(full, empty) && Holds(empty, extra)
      requires freedBuckets == Loose(SetOf(full)) && SetOf(extra) <= buffer && SetOf(extra) !! freed
      modifies `emptyStack, `freed, `cleaned, `freedBuckets, SetOf(empty)`data
      ensures emptyStack == null && freed == old(freed)
      ensures cleaned == if hasCleanup then old(cleaned) + extra else old(cleaned)
      ensures freedBuckets == Loose(SetOf(full) + SetOf(empty))
    {
      ghost var i, freed0, cleaned0 := 0, freed, cleaned;
      assert empty[0..] == empty && SetOf(empty[..0]) == {} && SetOf(full) + {} == SetOf(full);
      if empty == [] {
        assert extra == [] && cleaned0 + extra == cleaned0;
      }
      hide Loose, Vacant, Apart, Distinct, SetOf;
      while emptyStack != null
        invariant Unstacking(i, extra, freed0, cleaned0)
        decreases |empty| - i
      {
        UnstackTop(i, extra, freed0, cleaned0);
        i := i + 1;
      }
      ChainTop(emptyStack, empty, i);
      assert empty[..i] == empty;
    }

    lemma NextLoose(i: nat)
      requires i < |empty| && Apart(full, empty)
      ensures Loose(SetOf(full) + SetOf(empty[..i + 1])) ==
              Loose(SetOf(full) + SetOf(empty[..i])) + (if empty[i].preallocated then {} else {empty[i]})
      ensures empty[i] !in Loose(SetOf(full) + SetOf(empty[..i]))
    {
      hide Loose;
      NextOf(empty, i);
      LooseMore(SetOf(full) + SetOf(empty[..i]), empty[i]);
      assert SetOf(full) + (SetOf(empty[..i]) + {empty[i]}) == SetOf(full) + SetOf(empty[..i]) + {empty[i]};
    }

    /** What the bucket `empty[i]` may still keep. */
    method ClearEmpty(pb: Bucket, ghost i: nat, ghost extra: seq<Elt>)
      requires i < |empty| && pb == empty[i] && Distinct(empty)
      requires if i == 0 then Holds(empty, extra) else Vacant(empty[1..])
      requires SetOf(extra) <= buffer && SetOf(extra) !! freed
      modifies `freed, `cleaned, pb`data
      ensures freed == old(freed) && Vacant(empty[1..])
      ensures cleaned == if hasCleanup && i == 0 then old(cleaned) + extra else old(cleaned)
    {
      EmptyTop(pb, i, extra);
      assert forall b :: b in empty[1..] ==> b in empty;
      if pb.data != null {
        Discard(pb.data);
        pb.data := null;
      }
      assert old(cleaned) + [] == old(cleaned);
    }

    lemma EmptyTop(pb: Bucket, i: nat, extra: seq<Elt>)
      requires i < |empty| && pb == empty[i] && if i == 0 then Holds(empty, extra) else Vacant(empty[1..])
      ensures pb.data != null ==> i == 0 && extra == [pb.data]
      ensures pb.data == null && i == 0 ==> extra == []
    {
      if i > 0 {
        assert empty[1..][i - 1] == pb;
      }
    }
  }

  lemma AddedApart(f: seq<Bucket>, e: seq<Bucket>, b: Bucket)
    requires Apart(f, e) && b !in f && b !in e
    ensures Apart(f, [b] + e)
  {
  }

  lemma ApartEither(f: seq<Bucket>, e: seq<Bucket>)
    requires Apart(f, e)
    ensures Apart(e, f)
  {
  }

  /** No bucket occurs twice on the two stacks. */
  ghost predicate Apart(f: seq<Bucket>, e: seq<Bucket>) {
    Distinct(f) && Distinct(e) && forall b :: b in f ==> b !in e
  }

  lemma ApartDistinct(f: seq<Bucket>, e: seq<Bucket>)
    requires Apart(f, e)
    ensures Distinct(f)
  {
  }

  /** Moving the top bucket to the other stack. */
  lemma MovedApart(f: seq<Bucket>, e: seq<Bucket>)
    requires f != [] && Apart(f, e)
    ensures Apart(f[1..], [f[0]] + e) && f[0] !in f[1..] && f[0] !in e
  {
    var g := [f[0]] + e;
    assert forall k :: 0 < k < |g| ==> g[k] in e;
    assert forall k :: 0 <= k < |f| - 1 ==> f[1..][k] == f[k + 1];
  }
}
