/** What a pass over the timers means: the timers as values, the callbacks that create and delete timers while the pass
    goes on, and what becomes of each timer. */
module TimerPass {
  import opened Division

  const DELETED: int := -1
  const NOMORE: int := -1

  /** A clock reading: seconds and milliseconds. */
  datatype Time = Time(sec: int, ms: int) {
    function Total(): int {
      1000 * sec + ms
    }
  }

  /** `aeAddMillisecondsToNow` */
  function Later(now: Time, milliseconds: int): Time {
    var sec, ms := now.sec + Quotient(milliseconds, 1000), now.ms + Remainder(milliseconds, 1000);
    if ms >= 1000 then Time(sec + 1, ms - 1000) else Time(sec, ms)
  }

  predicate Normal(t: Time) {
    0 <= t.ms < 1000
  }

  /** The test of `processTimeEvents` for a timer that is to fire. */
  predicate Due(now: Time, when: Time) {
    now.sec > when.sec || (now.sec == when.sec && now.ms >= when.ms)
  }

  /** The new time is exactly `milliseconds` later; for a delay that is not negative it is in normal form,
      so that the timer is due exactly when that time has come. */
  lemma LaterIsExact(now: Time, milliseconds: int, then': Time)
    requires Normal(now) && Normal(then')
    ensures Later(now, milliseconds).Total() == now.Total() + milliseconds
    ensures milliseconds >= 0 ==> Normal(Later(now, milliseconds))
    ensures milliseconds >= 0 ==> (Due(then', Later(now, milliseconds))
                                   <==> then'.Total() >= now.Total() + milliseconds)
  {
    var q, r := Quotient(milliseconds, 1000), Remainder(milliseconds, 1000);
    assert milliseconds == 1000 * q + r;
  }

  /** An entry of the list; `born` is the identifier it was created with. */
  datatype Timer = Timer(born: int, id: int, when: Time, finalizer: bool)

  datatype Op = Create(milliseconds: int, finalizer: bool) | Delete(id: int)

  /** What a callback does, and what it returns. */
  datatype Reaction = Reaction(ops: seq<Op>, retval: int)

  /** A callback for the timer created with that identifier. */
  datatype Event = Fired(timer: int) | Finalized(timer: int)

  /** The timers, how often the clock has been read, and the callbacks so far. */
  datatype World = World(timers: seq<Timer>, nextId: int, ticks: nat, log: seq<Event>)

  /** Identifiers go down along the list; an entry has its own or the mark of a deletion. */
  predicate Ordered(ts: seq<Timer>, nextId: int) {
    && nextId >= 0
    && (forall i, j :: 0 <= i < j < |ts| ==> ts[i].born > ts[j].born)
    && forall i :: 0 <= i < |ts| ==> 0 <= ts[i].born < nextId && (ts[i].id == ts[i].born || ts[i].id == DELETED)
  }

  // ----- what callbacks do -----

  /** `aeDeleteTimeEvent`: the first entry with the identifier is marked. */
  function Marked(ts: seq<Timer>, id: int): (ts': seq<Timer>)
    ensures |ts'| == |ts|
  {
    if ts == [] then []
    else if ts[0].id == id then [ts[0].(id := DELETED)] + ts[1..]
    else [ts[0]] + Marked(ts[1..], id)
  }

  /** What a callback can do: `clock(n)` is the n-th reading of the clock. */
  function Do(w: World, op: Op, clock: nat -> Time): (w': World)
    ensures |w'.timers| >= |w.timers| && w'.log == w.log
    ensures w'.ticks - w.ticks == w'.nextId - w.nextId == |w'.timers| - |w.timers|
  {
    match op
    case Create(milliseconds, finalizer) =>
      var t := Timer(w.nextId, w.nextId, Later(clock(w.ticks), milliseconds), finalizer);
      w.(timers := [t] + w.timers, nextId := w.nextId + 1, ticks := w.ticks + 1)
    case Delete(id) => w.(timers := Marked(w.timers, id))
  }

  function DoAll(w: World, ops: seq<Op>, clock: nat -> Time): (w': World)
    ensures |w'.timers| >= |w.timers| && w'.log == w.log
    ensures w'.ticks - w.ticks == w'.nextId - w.nextId == |w'.timers| - |w.timers|
  {
    if ops == [] then w else Do(DoAll(w, ops[..|ops| - 1], clock), ops[|ops| - 1], clock)
  }

  /** The callback for `e`; `script(n)` is what the n-th callback does. */
  function Callback(w: World, e: Event, clock: nat -> Time, script: nat -> Reaction): (w': World)
    ensures w'.nextId - w.nextId == |w'.timers| - |w.timers| >= 0 && w'.log == w.log + [e]
  {
    DoAll(w.(log := w.log + [e]), script(|w.log|).ops, clock)
  }

  // ----- one entry -----

  /** The entry with `r - 1` entries behind it. */
  function At(w: World, r: nat): Timer
    requires 0 < r <= |w.timers|
  {
    w.timers[|w.timers| - r]
  }

  function Put(w: World, r: nat, t: Timer): World
    requires 0 < r <= |w.timers|
  {
    w.(timers := w.timers[|w.timers| - r := t])
  }

  /** The branch for an entry that is marked. */
  function Removed(w: World, r: nat, clock: nat -> Time, script: nat -> Reaction): (w': World)
    requires 0 < r <= |w.timers|
    ensures w'.nextId - w.nextId == |w'.timers| - |w.timers| + 1 >= 0
  {
    var i := |w.timers| - r;
    var w1 := w.(timers := w.timers[..i] + w.timers[i + 1..]);
    if At(w, r).finalizer then Callback(w1, Finalized(At(w, r).born), clock, script) else w1
  }

  /** The timer has fired; it is set again, or marked. */
  function Settled(w: World, r: nat, retval: int, clock: nat -> Time): (w': World)
    requires 0 < r <= |w.timers|
    ensures w'.nextId == w.nextId && |w'.timers| == |w.timers|
  {
    if retval != NOMORE then Put(w, r, At(w, r).(when := Later(clock(w.ticks), retval))).(ticks := w.ticks + 1)
    else Put(w, r, At(w, r).(id := DELETED))
  }

  function Fire(w: World, r: nat, clock: nat -> Time, script: nat -> Reaction): (w': World)
    requires 0 < r <= |w.timers|
    ensures w'.nextId - w.nextId == |w'.timers| - |w.timers| >= 0
  {
    Settled(Callback(w, Fired(At(w, r).id), clock, script), r, script(|w.log|).retval, clock)
  }

  /** The body of the loop of `processTimeEvents` for the entry with `r - 1` entries behind it. */
  function Visit(w: World, r: nat, clock: nat -> Time, script: nat -> Reaction): (w': World)
    requires 0 < r <= |w.timers|
    ensures w'.nextId - w.nextId == |w'.timers| - |w.timers| + (if At(w, r).id == DELETED then 1 else 0) >= 0
  {
    if At(w, r).id == DELETED then Removed(w, r, clock, script)
    else
      var w1 := w.(ticks := w.ticks + 1);
      if Due(clock(w.ticks), At(w, r).when) then Fire(w1, r, clock, script) else w1
  }

  /** The pass after `k` visits. Each of them is of the entry behind the one before, so it has one entry fewer behind
      it; entries created meanwhile are at the front of the list and never met. */
  function Pass(w: World, k: nat, clock: nat -> Time, script: nat -> Reaction): (w': World)
    requires k <= |w.timers|
    ensures |w'.timers| >= |w.timers| - k
  {
    if k == 0 then w else Visit(Pass(w, k - 1, clock, script), |w.timers| - k + 1, clock, script)
  }

  /** How many timers have fired. */
  function Calls(log: seq<Event>): nat {
    if log == [] then 0 else Calls(log[..|log| - 1]) + if log[|log| - 1].Fired? then 1 else 0
  }

  /** The clock has gone back: every timer is to fire as soon as possible. */
  function Forced(ts: seq<Timer>): (ts': seq<Timer>)
    ensures |ts'| == |ts| && forall k :: 0 <= k < |ts| ==> ts'[k] == ts[k].(when := Time(0, ts[k].when.ms))
  {
    if ts == [] then [] else [ts[0].(when := Time(0, ts[0].when.ms))] + Forced(ts[1..])
  }

  /** The first `i` of them have been set so. */
  function Partly(ts: seq<Timer>, i: nat): (ts': seq<Timer>)
    requires i <= |ts|
    ensures |ts'| == |ts|
  {
    Forced(ts)[..i] + ts[i..]
  }

  lemma OneMoreForced(ts: seq<Timer>, i: nat)
    requires i < |ts|
    ensures Partly(ts, i)[i := Partly(ts, i)[i].(when := Time(0, Partly(ts, i)[i].when.ms))] == Partly(ts, i + 1)
  {
  }

  lemma AllForced(ts: seq<Timer>)
    ensures Partly(ts, 0) == ts && Partly(ts, |ts|) == Forced(ts)
  {
  }

  /** `processTimeEvents`; `back` says that the clock has gone back. */
  function Processed(w: World, back: bool, clock: nat -> Time, script: nat -> Reaction): World {
    var w1 := if back then w.(timers := Forced(w.timers)) else w;
    Pass(w1, |w1.timers|, clock, script)
  }

  /** When the clock has gone back, but not to its beginning, every timer is due at once. */
  lemma ForcedAreDue(ts: seq<Timer>, now: Time)
    requires now.sec > 0
    ensures forall t :: t in Forced(ts) ==> Due(now, t.when)
  {
  }

  // ----- what callbacks change -----

  lemma {:induction false} MarkedAt(ts: seq<Timer>, id: int, i: nat)
    requires i < |ts| && ts[i].id == id && forall k :: 0 <= k < i ==> ts[k].id != id
    ensures Marked(ts, id) == ts[i := ts[i].(id := DELETED)]
  {
    if i > 0 {
      MarkedAt(ts[1..], id, i - 1);
    }
  }

  lemma {:induction false} MarkedNone(ts: seq<Timer>, id: int)
    requires forall k :: 0 <= k < |ts| ==> ts[k].id != id
    ensures Marked(ts, id) == ts
  {
    if ts != [] {
      MarkedNone(ts[1..], id);
    }
  }

  /** The entry after the deletions among `ops`. */
  function Struck(t: Timer, ops: seq<Op>): Timer {
    if Delete(t.id) in ops then t.(id := DELETED) else t
  }

  /** In an ordered list exactly the entry with the identifier is marked. */
  lemma {:induction false} MarkedIs(ts: seq<Timer>, nextId: int, id: int)
    requires Ordered(ts, nextId)
    ensures forall k :: 0 <= k < |ts| ==> Marked(ts, id)[k] == Struck(ts[k], [Delete(id)])
    ensures Ordered(Marked(ts, id), nextId)
  {
    if i: nat :| i < |ts| && ts[i].id == id && forall k :: 0 <= k < i ==> ts[k].id != id {
      MarkedAt(ts, id, i);
    } else {
      NoFirst(ts, id, |ts|);
      MarkedNone(ts, id);
    }
  }

  lemma {:induction false} NoFirst(ts: seq<Timer>, id: int, n: nat)
    requires n <= |ts| && forall i: nat :: i < n && ts[i].id == id ==> exists k :: 0 <= k < i && ts[k].id == id
    ensures forall k :: 0 <= k < n ==> ts[k].id != id
  {
    if n > 0 {
      NoFirst(ts, id, n - 1);
    }
  }

  /** An entry with fewer than `r` entries behind it is still there. */
  lemma DoAt(w: World, op: Op, clock: nat -> Time, r: nat)
    requires Ordered(w.timers, w.nextId)
    ensures Ordered(Do(w, op, clock).timers, Do(w, op, clock).nextId)
    ensures 0 < r <= |w.timers| ==> At(Do(w, op, clock), r) == Struck(At(w, r), [op])
    ensures |w.timers| < r <= |Do(w, op, clock).timers| ==>
              At(Do(w, op, clock), r).born == w.nextId + r - |w.timers| - 1
  {
    hide Later;
    if op.Delete? {
      MarkedIs(w.timers, w.nextId, op.id);
    }
  }

  lemma StruckMore(t: Timer, ops: seq<Op>, op: Op)
    ensures Struck(Struck(t, ops), [op]) == Struck(t, ops + [op]) && Struck(t, []) == t
  {
  }

  /** A callback adds entries at the front, and of the entries that were there it marks exactly those it deletes. */
  lemma {:induction false} DoAllAt(w: World, ops: seq<Op>, clock: nat -> Time, r: nat)
    requires Ordered(w.timers, w.nextId)
    ensures Ordered(DoAll(w, ops, clock).timers, DoAll(w, ops, clock).nextId)
    ensures 0 < r <= |w.timers| ==> At(DoAll(w, ops, clock), r) == Struck(At(w, r), ops)
    ensures |w.timers| < r <= |DoAll(w, ops, clock).timers| ==>
              At(DoAll(w, ops, clock), r).born == w.nextId + r - |w.timers| - 1
  {
    hide Do, Ordered, Struck;
    if ops == [] {
      if 0 < r <= |w.timers| {
        StruckMore(At(w, r), [], Delete(0));
      }
    } else {
      var n := |ops| - 1;
      assert ops[..n] + [ops[n]] == ops;
      DoAllAt(w, ops[..n], clock, r);
      DoAt(DoAll(w, ops[..n], clock), ops[n], clock, r);
      if 0 < r <= |w.timers| {
        StruckMore(At(w, r), ops[..n], ops[n]);
      } else if 0 < r <= |DoAll(w, ops[..n], clock).timers| {
        StruckKeepsBorn(At(DoAll(w, ops[..n], clock), r), [ops[n]]);
      }
    }
  }

  lemma NoOps(w: World, ops: seq<Op>, clock: nat -> Time)
    ensures DoAll(w, ops[..0], clock) == w && ops[..|ops|] == ops
  {
  }

  lemma OneMoreOp(w: World, ops: seq<Op>, i: nat, clock: nat -> Time)
    requires i < |ops|
    ensures DoAll(w, ops[..i + 1], clock) == Do(DoAll(w, ops[..i], clock), ops[i], clock)
  {
    assert ops[..i + 1][..i] == ops[..i];
  }

  lemma StruckKeepsBorn(t: Timer, ops: seq<Op>)
    ensures Struck(t, ops).born == t.born
  {
  }

  // ----- what becomes of the entries -----

  /** A callback made as number `from` or later, and before number `to`, has deleted the identifier. */
  ghost predicate DeletedBy(script: nat -> Reaction, from: nat, to: nat, id: int) {
    exists n: nat :: from <= n < to && Delete(id) in script(n).ops
  }

  /** The entry after these callbacks. */
  ghost function StruckBy(t: Timer, script: nat -> Reaction, from: nat, to: nat): (t': Timer)
    ensures t'.born == t.born
  {
    if DeletedBy(script, from, to, t.id) then t.(id := DELETED) else t
  }

  lemma StruckTwice(t: Timer, script: nat -> Reaction, from: nat, mid: nat, to: nat)
    requires from <= mid <= to
    ensures StruckBy(StruckBy(t, script, from, mid), script, mid, to) == StruckBy(t, script, from, to)
    ensures StruckBy(t, script, from, from) == t
  {
    if DeletedBy(script, from, to, t.id) && !DeletedBy(script, from, mid, t.id) {
      var n: nat :| from <= n < to && Delete(t.id) in script(n).ops;
      assert mid <= n;
    }
  }

  lemma StruckOnce(t: Timer, script: nat -> Reaction, n: nat)
    ensures StruckBy(t, script, n, n + 1) == Struck(t, script(n).ops)
  {
    if Delete(t.id) in script(n).ops {
      assert DeletedBy(script, n, n + 1, t.id);
    }
  }

  /** What the n-th callback does to the entries that are there. */
  lemma CallbackAt(w: World, e: Event, clock: nat -> Time, script: nat -> Reaction, r: nat)
    requires Ordered(w.timers, w.nextId)
    ensures var w', n := Callback(w, e, clock, script), |w.log|;
            && Ordered(w'.timers, w'.nextId) && w'.nextId >= w.nextId && w'.ticks >= w.ticks
            && (0 < r <= |w.timers| ==> At(w', r) == StruckBy(At(w, r), script, n, n + 1))
            && (|w.timers| < r <= |w'.timers| ==> At(w', r).born == w.nextId + r - |w.timers| - 1)
  {
    hide DoAll, Ordered, StruckBy, Struck;
    DoAllAt(w.(log := w.log + [e]), script(|w.log|).ops, clock, r);
    if 0 < r <= |w.timers| {
      StruckOnce(At(w, r), script, |w.log|);
    }
  }

  /** The callback for an entry that is visited, if there is one. */
  function EventOf(t: Timer, now: Time): seq<Event> {
    if t.id == DELETED then (if t.finalizer then [Finalized(t.born)] else [])
    else if Due(now, t.when) then [Fired(t.born)] else []
  }

  lemma CallsMore(log: seq<Event>, t: Timer, now: Time)
    ensures Calls(log + EventOf(t, now)) == Calls(log) + if t.id != DELETED && Due(now, t.when) then 1 else 0
  {
    hide Due;
    assert EventOf(t, now) == [] ==> log + EventOf(t, now) == log;
    assert EventOf(t, now) != [] ==> (log + EventOf(t, now))[..|log|] == log;
  }

  /** The clock reading with which a timer that has fired is set again: one after its callback. */
  function Again(w: World, r: nat, clock: nat -> Time, script: nat -> Reaction): Time
    requires 0 < r <= |w.timers|
  {
    clock(Callback(w.(ticks := w.ticks + 1), Fired(At(w, r).id), clock, script).ticks)
  }

  /** An entry that is not marked, as its visit leaves it. */
  ghost function Left(w: World, r: nat, clock: nat -> Time, script: nat -> Reaction): (t': Timer)
    requires 0 < r <= |w.timers|
    ensures t'.born == At(w, r).born
  {
    var t, n := At(w, r), |w.log|;
    if !Due(clock(w.ticks), t.when) then t
    else if script(n).retval == -1 then t.(id := DELETED)
    else StruckBy(t, script, n, n + 1).(when := Later(Again(w, r, clock, script), script(n).retval))
  }

  lemma OrderedWith(ts: seq<Timer>, nextId: int, i: nat, t: Timer)
    requires Ordered(ts, nextId) && i < |ts| && t.born == ts[i].born && (t.id == ts[i].id || t.id == DELETED)
    ensures Ordered(ts[i := t], nextId)
  {
  }

  lemma OrderedRemove(ts: seq<Timer>, nextId: int, i: nat)
    requires Ordered(ts, nextId) && i < |ts|
    ensures Ordered(ts[..i] + ts[i + 1..], nextId)
  {
    var s := ts[..i] + ts[i + 1..];
    assert forall k :: 0 <= k < |s| ==> s[k] == ts[if k < i then k else k + 1];
  }

  /** Where the entry with `q - 1` entries behind it is after the visit of the entry with `r - 1` entries behind it. */
  function Moved(w: World, r: nat, q: nat): nat
    requires 0 < r <= |w.timers| && 0 < q <= |w.timers| && q != r
  {
    if q > r && At(w, r).id == DELETED then q - 1 else q
  }

  /** What holds after a visit, whatever was visited. */
  ghost predicate Orderly(w: World, w': World) {
    Ordered(w'.timers, w'.nextId) && w'.nextId >= w.nextId && w'.ticks >= w.ticks && |w'.log| >= |w.log|
  }

  /** The visit of a marked entry, seen from the others and from the entries behind `q` places. */
  lemma RemovedAt(w: World, r: nat, q: nat, clock: nat -> Time, script: nat -> Reaction)
    requires Ordered(w.timers, w.nextId) && 0 < r <= |w.timers| && At(w, r).id == DELETED
    ensures var w' := Visit(w, r, clock, script);
            && Orderly(w, w') && w'.log == w.log + EventOf(At(w, r), clock(w.ticks))
            && (0 < q <= |w.timers| && q != r ==>
                  && Moved(w, r, q) <= |w'.timers|
                  && At(w', Moved(w, r, q)) == StruckBy(At(w, q), script, |w.log|, |w'.log|))
            && (|w.timers| <= q <= |w'.timers| ==> At(w', q).born == w.nextId + q - |w.timers|)
  {
    hide Ordered, StruckBy, Callback, Due;
    var i := |w.timers| - r;
    var w1 := w.(timers := w.timers[..i] + w.timers[i + 1..]);
    OrderedRemove(w.timers, w.nextId, i);
    var q' := if q > r && q <= |w.timers| then q - 1 else q;
    if At(w, r).finalizer {
      CallbackAt(w1, Finalized(At(w, r).born), clock, script, q');
      CallbackAt(w1, Finalized(At(w, r).born), clock, script, q);
    } else if 0 < q <= |w.timers| {
      StruckTwice(At(w, q), script, |w.log|, |w.log|, |w.log|);
    }
  }

  /** The visit of an entry that fires. */
  lemma FireAt(w: World, r: nat, q: nat, clock: nat -> Time, script: nat -> Reaction)
    requires Ordered(w.timers, w.nextId) && 0 < r <= |w.timers| && At(w, r).id != DELETED
    requires Due(clock(w.ticks), At(w, r).when)
    ensures var w' := Visit(w, r, clock, script);
            && Orderly(w, w') && w'.ticks > w.ticks && w'.log == w.log + [Fired(At(w, r).id)]
            && |w'.timers| >= |w.timers|
            && At(w', r) == Left(w, r, clock, script)
            && (0 < q <= |w.timers| && q != r ==> At(w', q) == StruckBy(At(w, q), script, |w.log|, |w'.log|))
            && (|w.timers| < q <= |w'.timers| ==> At(w', q).born == w.nextId + q - |w.timers| - 1)
  {
    hide Ordered, Callback, Due, DeletedBy, Later;
    var w1 := w.(ticks := w.ticks + 1);
    CallbackAt(w1, Fired(At(w, r).id), clock, script, q);
    CallbackAt(w1, Fired(At(w, r).id), clock, script, r);
    var w2 := Callback(w1, Fired(At(w, r).id), clock, script);
    var id := if script(|w.log|).retval == NOMORE then DELETED else At(w2, r).id;
    OrderedWith(w2.timers, w2.nextId, |w2.timers| - r, Left(w, r, clock, script).(id := id));
  }

  /** The identifier of an entry that is not marked. */
  lemma OwnId(w: World, r: nat)
    requires Ordered(w.timers, w.nextId) && 0 < r <= |w.timers|
    ensures (At(w, r).id == At(w, r).born || At(w, r).id == DELETED) && 0 <= At(w, r).born < w.nextId
  {
  }

  /** How many of the entries a visit leaves in the list. */
  function Staying(w: World, r: nat): int
    requires 0 < r <= |w.timers|
  {
    if At(w, r).id == DELETED then |w.timers| - 1 else |w.timers|
  }

  /** One visit: what it does to the entry itself and to any other, and which callback it makes. */
  lemma VisitAt(w: World, r: nat, q: nat, clock: nat -> Time, script: nat -> Reaction)
    requires Ordered(w.timers, w.nextId) && 0 < r <= |w.timers|
    ensures var w', t := Visit(w, r, clock, script), At(w, r);
            && Orderly(w, w') && w'.log == w.log + EventOf(t, clock(w.ticks))
            && (t.id != DELETED ==> w'.ticks > w.ticks && r <= |w'.timers| && At(w', r) == Left(w, r, clock, script))
            && (0 < q <= |w.timers| && q != r ==>
                  && Moved(w, r, q) <= |w'.timers|
                  && At(w', Moved(w, r, q)) == StruckBy(At(w, q), script, |w.log|, |w'.log|))
            && (Staying(w, r) < q <= |w'.timers| ==> At(w', q).born == w.nextId + q - Staying(w, r) - 1)
  {
    hide Ordered, StruckBy, Fire, Removed, Due, Later;
    OwnId(w, r);
    if At(w, r).id == DELETED {
      hide Visit;
      RemovedAt(w, r, q, clock, script);
    } else if Due(clock(w.ticks), At(w, r).when) {
      hide Visit;
      FireAt(w, r, q, clock, script);
    } else if 0 < q <= |w.timers| {
      StruckTwice(At(w, q), script, |w.log|, |w.log|, |w.log|);
    }
  }

  // ----- the whole pass -----

  /** One more visit. */
  lemma NextVisit(w: World, k: nat, clock: nat -> Time, script: nat -> Reaction)
    requires k < |w.timers|
    ensures Pass(w, k + 1, clock, script) == Visit(Pass(w, k, clock, script), |w.timers| - k, clock, script)
    ensures Pass(w, 0, clock, script) == w
  {
    hide Visit;
  }

  lemma {:induction false} PassOrderly(w: World, k: nat, clock: nat -> Time, script: nat -> Reaction)
    requires Ordered(w.timers, w.nextId) && k <= |w.timers|
    ensures Orderly(w, Pass(w, k, clock, script))
  {
    hide Visit, Ordered;
    if k > 0 {
      hide Pass;
      PassOrderly(w, k - 1, clock, script);
      NextVisit(w, k - 1, clock, script);
      VisitAt(Pass(w, k - 1, clock, script), |w.timers| - k + 1, 0, clock, script);
    }
  }

  /** An entry that has not been reached is still in its place, unless it has been marked just as it was. */
  lemma {:induction false} Waiting(w: World, k: nat, i: nat, clock: nat -> Time, script: nat -> Reaction)
    requires Ordered(w.timers, w.nextId) && k <= i < |w.timers|
    ensures var u := Pass(w, k, clock, script);
            At(u, |w.timers| - i) == StruckBy(w.timers[i], script, |w.log|, |u.log|)
  {
    hide Visit, Ordered, StruckBy;
    PassOrderly(w, k, clock, script);
    if k == 0 {
      StruckTwice(w.timers[i], script, |w.log|, |w.log|, |w.log|);
    } else {
      hide Pass;
      var u := Pass(w, k - 1, clock, script);
      PassOrderly(w, k - 1, clock, script);
      NextVisit(w, k - 1, clock, script);
      Waiting(w, k - 1, i, clock, script);
      VisitAt(u, |w.timers| - k + 1, |w.timers| - i, clock, script);
      StruckTwice(w.timers[i], script, |w.log|, |u.log|, |Pass(w, k, clock, script).log|);
    }
  }

  /** There is an entry created with the identifier. */
  ghost predicate Exists(w: World, born: int) {
    exists t :: t in w.timers && t.born == born
  }

  lemma SamePlace(w: World, q: nat, r: nat)
    requires Ordered(w.timers, w.nextId) && 0 < q <= |w.timers| && 0 < r <= |w.timers|
    ensures At(w, q).born == At(w, r).born <==> q == r
  {
  }

  /** Of the entries created before, a visit removes its own if that is marked, and no other. */
  lemma VisitExists(w: World, r: nat, born: int, clock: nat -> Time, script: nat -> Reaction)
    requires Ordered(w.timers, w.nextId) && 0 < r <= |w.timers| && born < w.nextId
    ensures Exists(Visit(w, r, clock, script), born)
      ==> Exists(w, born) && !(At(w, r).id == DELETED && At(w, r).born == born)
  {
    hide Visit, Ordered;
    var w' := Visit(w, r, clock, script);
    if t :| t in w'.timers && t.born == born {
      var j :| 0 <= j < |w'.timers| && w'.timers[j] == t;
      var p := |w'.timers| - j;
      VisitAt(w, r, p, clock, script);
      var q := if At(w, r).id == DELETED && p >= r then p + 1 else p;
      VisitAt(w, r, q, clock, script);
      assert At(w, q) in w.timers && At(w, q).born == born;
      SamePlace(w, q, r);
    }
  }

  lemma {:induction false} PassExists(w: World, i: nat, k: nat, born: int, clock: nat -> Time, script: nat -> Reaction)
    requires Ordered(w.timers, w.nextId) && i <= k <= |w.timers| && born < w.nextId
    ensures Exists(Pass(w, k, clock, script), born) ==> Exists(Pass(w, i, clock, script), born)
    decreases k
  {
    hide Visit, Ordered, Exists, Pass;
    if i < k {
      PassOrderly(w, k - 1, clock, script);
      NextVisit(w, k - 1, clock, script);
      VisitExists(Pass(w, k - 1, clock, script), |w.timers| - k + 1, born, clock, script);
      PassExists(w, i, k - 1, born, clock, script);
    }
  }

  /** Another entry stays through a visit. */
  lemma VisitKeeps(w: World, r: nat, t: Timer, clock: nat -> Time, script: nat -> Reaction)
    requires Ordered(w.timers, w.nextId) && 0 < r <= |w.timers| && t in w.timers && t.born != At(w, r).born
    ensures var w' := Visit(w, r, clock, script); StruckBy(t, script, |w.log|, |w'.log|) in w'.timers
  {
    hide Visit, Ordered, StruckBy;
    var j :| 0 <= j < |w.timers| && w.timers[j] == t;
    VisitAt(w, r, |w.timers| - j, clock, script);
  }

  /** An entry stays in the list behind its visit; later callbacks may mark it. */
  lemma {:induction false} Stays(w: World, i: nat, k: nat, t: Timer, clock: nat -> Time, script: nat -> Reaction)
    requires Ordered(w.timers, w.nextId) && i < k <= |w.timers| && t.born == w.timers[i].born
    requires t in Pass(w, i + 1, clock, script).timers
    ensures var v, u := Pass(w, i + 1, clock, script), Pass(w, k, clock, script);
            |v.log| <= |u.log| && StruckBy(t, script, |v.log|, |u.log|) in u.timers
    decreases k
  {
    hide Visit, StruckBy, Pass;
    var v, u' := Pass(w, i + 1, clock, script), Pass(w, k, clock, script);
    if k == i + 1 {
      StruckTwice(t, script, |v.log|, |v.log|, |v.log|);
    } else {
      var u := Pass(w, k - 1, clock, script);
      PassOrderly(w, k - 1, clock, script);
      NextVisit(w, k - 1, clock, script);
      Stays(w, i, k - 1, t, clock, script);
      Waiting(w, k - 1, k - 1, clock, script);
      var t' := StruckBy(t, script, |v.log|, |u.log|);
      VisitAt(u, |w.timers| - k + 1, 0, clock, script);
      VisitKeeps(u, |w.timers| - k + 1, t', clock, script);
      StruckTwice(t, script, |v.log|, |u.log|, |u'.log|);
    }
  }

  /** What becomes of the timer with `i` entries before it. It is found unmarked, and as it was set, unless it was
      marked before or a callback made earlier in the pass has deleted it. If it is marked, it is gone in the end. If
      not, it is called if it is due; it is in the list in the end, set for the time its callback asked for, and it is
      marked exactly if it has asked for no further call or its own or a later callback has deleted it. */
  lemma Fate(w: World, i: nat, clock: nat -> Time, script: nat -> Reaction)
    requires Ordered(w.timers, w.nextId) && i < |w.timers|
    ensures var n, u, v := |w.timers|, Pass(w, i, clock, script), Pass(w, i + 1, clock, script);
            var z, found := Pass(w, n, clock, script), StruckBy(w.timers[i], script, |w.log|, |u.log|);
            && found == At(u, n - i) && v.log == u.log + EventOf(found, clock(u.ticks))
            && (found.id == DELETED <==>
                  w.timers[i].id == DELETED || DeletedBy(script, |w.log|, |u.log|, w.timers[i].id))
            && Ordered(z.timers, z.nextId)
            && (found.id == DELETED ==> !Exists(z, found.born))
            && (found.id != DELETED ==>
                  && u.ticks < v.ticks && |v.log| <= |z.log|
                  && StruckBy(Left(u, n - i, clock, script), script, |v.log|, |z.log|) in z.timers)
  {
    hide Visit, Ordered, StruckBy, Pass, Exists, Due, Left;
    var n, u, v := |w.timers|, Pass(w, i, clock, script), Pass(w, i + 1, clock, script);
    PassOrderly(w, i, clock, script);
    PassOrderly(w, n, clock, script);
    Waiting(w, i, i, clock, script);
    StruckExactly(w.timers[i], script, |w.log|, |u.log|);
    NextVisit(w, i, clock, script);
    VisitAt(u, n - i, 0, clock, script);
    if At(u, n - i).id == DELETED {
      FoundBorn(w, i);
      VisitExists(u, n - i, w.timers[i].born, clock, script);
      PassExists(w, i + 1, n, w.timers[i].born, clock, script);
    } else {
      assert At(v, n - i) in v.timers;
      Stays(w, i, n, At(v, n - i), clock, script);
    }
  }

  /** When the clock has gone back, but not to its beginning, every timer that has not been deleted fires in the
      pass. */
  lemma AllFireWhenBack(w: World, i: nat, clock: nat -> Time, script: nat -> Reaction)
    requires Ordered(w.timers, w.nextId) && i < |w.timers| && forall k :: clock(k).sec > 0
    ensures var n, f := |w.timers|, w.(timers := Forced(w.timers));
            var u, v := Pass(f, i, clock, script), Pass(f, i + 1, clock, script);
            && Processed(w, true, clock, script) == Pass(f, n, clock, script)
            && At(u, n - i).born == w.timers[i].born
            && (At(u, n - i).id != DELETED ==> v.log == u.log + [Fired(w.timers[i].born)])
  {
    hide Pass, DeletedBy;
    var f := w.(timers := Forced(w.timers));
    Fate(f, i, clock, script);
  }

  /** And when it has not, they are left as they are. */
  lemma NoneForced(w: World, clock: nat -> Time, script: nat -> Reaction)
    ensures Processed(w, false, clock, script) == Pass(w, |w.timers|, clock, script)
  {
  }

  lemma StruckExactly(t: Timer, script: nat -> Reaction, from: nat, to: nat)
    ensures StruckBy(t, script, from, to).id == DELETED <==> t.id == DELETED || DeletedBy(script, from, to, t.id)
  {
  }

  lemma FoundBorn(w: World, i: nat)
    requires Ordered(w.timers, w.nextId) && i < |w.timers|
    ensures 0 <= w.timers[i].born < w.nextId
  {
  }

  /** Only entries created by the callbacks come into the list. */
  lemma NothingElse(w: World, t: Timer, clock: nat -> Time, script: nat -> Reaction)
    requires Ordered(w.timers, w.nextId) && t in Pass(w, |w.timers|, clock, script).timers
    ensures t.born >= w.nextId || exists i :: 0 <= i < |w.timers| && w.timers[i].born == t.born
  {
    if t.born < w.nextId {
      PassExists(w, 0, |w.timers|, t.born, clock, script);
      assert Exists(w, t.born);
    }
  }

  /** The callbacks of the pass are for entries that were in the list when it began, each is called at most once,
      whether to fire or to be finalized, and they are called in the order of the list. */
  lemma {:induction false} CalledInOrder(w: World, k: nat, clock: nat -> Time, script: nat -> Reaction)
    requires Ordered(w.timers, w.nextId) && k <= |w.timers|
    ensures var n, log := |w.log|, Pass(w, k, clock, script).log;
            && w.log <= log
            && (forall j :: n <= j < |log| ==> exists i :: 0 <= i < k && w.timers[i].born == log[j].timer)
            && forall j, j' :: n <= j < j' < |log| ==> log[j].timer > log[j'].timer
  {
    hide Visit, StruckBy, Due;
    if k > 0 {
      hide Pass;
      CalledInOrder(w, k - 1, clock, script);
      Fate(w, k - 1, clock, script);
      var log, e := Pass(w, k - 1, clock, script).log, Pass(w, k, clock, script).log;
      assert forall j :: |log| <= j < |e| ==> e[j].timer == w.timers[k - 1].born;
    }
  }

  /** Every entry created meanwhile is in the list in the end. */
  lemma {:induction false} CreatedStay(w: World, k: nat, born: int, clock: nat -> Time, script: nat -> Reaction)
    requires Ordered(w.timers, w.nextId) && k <= |w.timers|
    requires w.nextId <= born < Pass(w, k, clock, script).nextId
    ensures Exists(Pass(w, k, clock, script), born)
  {
    hide Visit, StruckBy;
    if k > 0 {
      hide Pass, Ordered;
      var u, r := Pass(w, k - 1, clock, script), |w.timers| - k + 1;
      PassOrderly(w, k - 1, clock, script);
      NextVisit(w, k - 1, clock, script);
      Waiting(w, k - 1, k - 1, clock, script);
      FoundBorn(w, k - 1);
      if born < u.nextId {
        CreatedStay(w, k - 1, born, clock, script);
        var t :| t in u.timers && t.born == born;
        VisitKeeps(u, r, t, clock, script);
      } else {
        VisitAt(u, r, Staying(u, r) + born - u.nextId + 1, clock, script);
        assert At(Visit(u, r, clock, script), Staying(u, r) + born - u.nextId + 1) in Visit(u, r, clock, script).timers;
      }
    }
  }
}
