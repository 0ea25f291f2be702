/** The timers of the event loop: a doubly linked list that callbacks change while it is traversed. */
module Timers {
  import opened Division
  import opened Lists
  import opened TimerPass

  class TimeEvent {
    var id: int
    var when: Time
    var prev: TimeEvent?
    var next: TimeEvent?
    const finalizer: bool
    /** The identifier it was created with, by which the callbacks in the log name it. */
    const born: int

    constructor (id: int, when: Time, finalizer: bool, next: TimeEvent?)
      ensures this.id == id == born && this.when == when && this.finalizer == finalizer
      ensures prev == null && this.next == next
    {
      this.id, born, this.when, this.finalizer, this.next, prev := id, id, when, finalizer, next, null;
    }
  }

  function First(s: seq<TimeEvent>): TimeEvent? {
    if s == [] then null else s[0]
  }

  function Last(s: seq<TimeEvent>): TimeEvent? {
    if s == [] then null else s[|s| - 1]
  }

  /** From `h` on, behind `p`, the list consists of the entries `s`. */
  ghost predicate Fore(p: TimeEvent?, h: TimeEvent?, s: seq<TimeEvent>)
    reads s`prev, s`next
    decreases |s|
  {
    if s == [] then h == null else h == s[0] && s[0].prev == p && Fore(s[0], s[0].next, s[1..])
  }

  /** The list that begins at `h` consists of the entries `s` up to the entry `e`. */
  ghost predicate Back(h: TimeEvent?, s: seq<TimeEvent>, e: TimeEvent?)
    reads s`prev, s`next
    decreases |s|
  {
    if s == [] then h == e else
      var n := |s| - 1;
      s[n].next == e && s[n].prev == Last(s[..n]) && Back(h, s[..n], s[n])
  }

  /** A list may be cut in two anywhere. */
  lemma {:induction false} Cut(h: TimeEvent?, front: seq<TimeEvent>, rest: seq<TimeEvent>)
    ensures Fore(null, h, front + rest) <==> Back(h, front, First(rest)) && Fore(Last(front), First(rest), rest)
    decreases |front|
  {
    if front == [] {
      assert front + rest == rest;
    } else {
      var n := |front| - 1;
      assert front[..n] + ([front[n]] + rest) == front + rest;
      assert ([front[n]] + rest)[1..] == rest;
      Cut(h, front[..n], [front[n]] + rest);
      FirstOf(front[n], rest);
    }
  }

  lemma FirstOf(te: TimeEvent, rest: seq<TimeEvent>)
    ensures Fore(te, te.next, rest) ==> te.next == First(rest)
  {
  }

  lemma NextInList(h: TimeEvent?, front: seq<TimeEvent>, te: TimeEvent, rest: seq<TimeEvent>)
    requires Fore(null, h, front + [te] + rest)
    ensures te.next == First(rest)
  {
    assert front + [te] + rest == front + ([te] + rest);
    Cut(h, front, [te] + rest);
    assert ([te] + rest)[1..] == rest;
    FirstOf(te, rest);
  }

  lemma FrontDistinct(te: TimeEvent, s: seq<TimeEvent>)
    requires Distinct(s) && te !in s
    ensures Distinct([te] + s)
  {
  }

  lemma NewInFront(te: TimeEvent, s: seq<TimeEvent>)
    requires Distinct([te] + s)
    ensures te !in s && (s != [] ==> s[0] !in s[1..])
  {
    var all := [te] + s;
    assert forall i :: 0 <= i < |s| ==> s[i] == all[i + 1] != all[0] == te;
    assert forall i :: 0 < i < |s| ==> s[i] == all[i + 1] != all[1] == s[0];
  }

  /** Going along the list `s`, the entry number `i` has been reached, or its end. */
  ghost predicate Reached(s: seq<TimeEvent>, i: nat, te: TimeEvent?)
    reads s`prev, s`next
  {
    i <= |s| && Fore(Last(s[..i]), te, s[i..])
  }

  lemma Begin(h: TimeEvent?, s: seq<TimeEvent>)
    requires Fore(null, h, s)
    ensures Reached(s, 0, h)
  {
  }

  lemma Onward(s: seq<TimeEvent>, i: nat, te: TimeEvent?)
    requires Reached(s, i, te)
    ensures if te == null then i == |s| else i < |s| && te == s[i] && Reached(s, i + 1, te.next)
  {
    if te != null {
      assert te == s[i] && s[..i + 1][i] == te && s[i..][1..] == s[i + 1..];
    }
  }

  /** What it means for the neighbours of an entry that no entry occurs twice. */
  lemma Separate(front: seq<TimeEvent>, te: TimeEvent, rest: seq<TimeEvent>)
    requires Distinct(front + [te] + rest)
    ensures Distinct(front + rest)
    ensures te !in front && te !in rest && (forall t :: t in front ==> t !in rest)
    ensures front != [] ==> Last(front) !in front[..|front| - 1]
    ensures rest != [] ==> rest[0] !in rest[1..]
  {
    var s := front + [te] + rest;
    var n := |front|;
    assert forall i :: 0 <= i < n ==> s[i] == front[i];
    assert s[n] == te;
    assert forall i :: 0 <= i < |rest| ==> s[n + 1 + i] == rest[i];
  }

  // ----- the list as values -----

  ghost function Value(t: TimeEvent): Timer
    reads t`id, t`when
  {
    Timer(t.born, t.id, t.when, t.finalizer)
  }

  ghost function Values(s: seq<TimeEvent>): (ts: seq<Timer>)
    reads s`id, s`when
    ensures |ts| == |s| && forall k :: 0 <= k < |s| ==> ts[k] == Value(s[k])
  {
    if s == [] then [] else [Value(s[0])] + Values(s[1..])
  }

  lemma Joined(a: seq<TimeEvent>, b: seq<TimeEvent>, c: seq<TimeEvent>)
    ensures a + b + c == a + (b + c) && [] + b == b
  {
  }

  lemma InFront(te: TimeEvent, s: seq<TimeEvent>)
    ensures Values([te] + s) == [Value(te)] + Values(s)
  {
  }

  lemma WithoutOne(front: seq<TimeEvent>, te: TimeEvent, rest: seq<TimeEvent>, nextId: int)
    requires Distinct(front + [te] + rest) && Ordered(Values(front + [te] + rest), nextId)
    ensures var ts := Values(front + [te] + rest); Values(front + rest) == ts[..|front|] + ts[|front| + 1..]
    ensures Distinct(front + rest) && Ordered(Values(front + rest), nextId)
    ensures forall t :: t in front || t in rest ==> t in front + [te] + rest
  {
    Separate(front, te, rest);
    hide Ordered, Distinct;
    var ts := Values(front + [te] + rest);
    OrderedRemove(ts, nextId, |front|);
    assert Values(front + rest) == ts[..|front|] + ts[|front| + 1..];
  }

  class TimerList {
    var head: TimeEvent?
    var nextId: int
    var lastTime: int
    ghost var list: seq<TimeEvent>
    /** The clock: how often it has been read. */
    var ticks: nat
    /** The callbacks so far. */
    var log: seq<Event>

    ghost predicate Valid()
      reads `head, `nextId, `list, list`id, list`when, list`prev, list`next
    {
      Fore(null, head, list) && Distinct(list) && Ordered(Values(list), nextId)
    }

    /** What the timers mean. */
    ghost function View(): World
      reads this, list`id, list`when
    {
      World(Values(list), nextId, ticks, log)
    }

    constructor (now: int)
      ensures Valid() && View() == World([], 0, 0, []) && lastTime == now
    {
      head, nextId, lastTime, list, ticks, log := null, 0, now, [], 0, [];
    }

    /** `aeGetTime` */
    method GetTime(clock: nat -> Time) returns (now: Time)
      modifies `ticks
      ensures now == clock(old(ticks)) && ticks == old(ticks) + 1
    {
      now := clock(ticks);
      ticks := ticks + 1;
    }

    /** `aeCreateTimeEvent` */
    method CreateTimeEvent(milliseconds: int, finalizer: bool, clock: nat -> Time) returns (id: int)
      requires Valid()
      modifies `head, `nextId, `list, `ticks, SetOf(list)`prev
      ensures Valid() && id == old(nextId)
      ensures list != [] && list == [list[0]] + old(list) && fresh(list[0]) && list[0].born == id
      ensures View() == Do(old(View()), Create(milliseconds, finalizer), clock)
    {
      hide Distinct, Later, Fore, Ordered, Values;
      ghost var before := View();
      DoAt(before, Create(milliseconds, finalizer), clock, 0);
      id := nextId;
      nextId := nextId + 1;
      var now := GetTime(clock);
      var te := new TimeEvent(id, Later(now, milliseconds), finalizer, head);
      FrontDistinct(te, list);
      PutFirst(te);
    }

    /** The new entry becomes the head. */
    method PutFirst(te: TimeEvent)
      requires Fore(null, head, list) && Distinct([te] + list) && te.next == head && te.prev == null
      modifies `head, `list, SetOf(list)`prev
      ensures Fore(null, head, list) && list == [te] + old(list) && Values(list) == [Value(te)] + old(Values(list))
    {
      ghost var rest := list;
      FirstIs(null, head, list);
      NewInFront(te, list);
      InFront(te, list);
      hide Distinct, Values;
      if te.next != null {
        te.next.prev := te;
        assert Fore(rest[0], rest[0].next, rest[1..]);
      }
      assert Fore(te, te.next, rest);
      head := te;
      list := [te] + list;
      assert list[1..] == rest;
    }

    /** `aeDeleteTimeEvent`: the entry is only marked. */
    method DeleteTimeEvent(id: int) returns (found: bool)
      requires Valid()
      modifies SetOf(list)`id
      ensures Valid() && Values(list) == Marked(old(Values(list)), id)
      ensures found <==> exists t :: t in list && old(t.id) == id
    {
      hide Fore, Distinct, Ordered, Values, Reached, Marked;
      ghost var before := Values(list);
      Begin(head, list);
      var te := head;
      ghost var i := 0;
      found := false;
      while te != null
        invariant Valid() && Values(list) == before && i <= |list| && Reached(list, i, te)
        invariant forall k :: 0 <= k < i ==> list[k].id != id
        decreases |list| - i
      {
        Onward(list, i, te);
        if te.id == id {
          MarkedAt(before, id, i);
          Mark(te, i);
          return true;
        }
        te := te.next;
        i := i + 1;
      }
      Onward(list, i, te);
      MarkedNone(before, id);
    }

    /** An entry is marked for deletion. */
    method Mark(te: TimeEvent, ghost i: nat)
      requires Valid() && i < |list| && te == list[i]
      modifies te`id
      ensures Valid() && Values(list) == old(Values(list))[i := old(Value(te)).(id := DELETED)]
    {
      hide Fore, Ordered;
      OthersDiffer(list, i);
      hide Distinct, Values;
      ghost var before := Values(list);
      OrderedWith(before, nextId, i, Value(te).(id := DELETED));
      te.id := DELETED;
      assert Values(list) == before[i := before[i].(id := DELETED)];
    }

    /** One of the things a callback may do. */
    method DoOne(op: Op, clock: nat -> Time) returns (ghost added: seq<TimeEvent>)
      requires Valid()
      modifies `head, `nextId, `list, `ticks, SetOf(list)`prev, SetOf(list)`id
      ensures Valid() && list == added + old(list) && nextId >= old(nextId)
      ensures forall t :: t in added ==> fresh(t) && t.born >= old(nextId)
      ensures View() == Do(old(View()), op, clock)
    {
      hide Fore, Distinct, Ordered, Values, Later, Marked;
      added := [];
      if op.Create? {
        var id := CreateTimeEvent(op.milliseconds, op.finalizer, clock);
        added := [list[0]];
      } else {
        var found := DeleteTimeEvent(op.id);
      }
    }

    /** What a callback does to the timers. */
    method Perform(ops: seq<Op>, clock: nat -> Time) returns (ghost added: seq<TimeEvent>)
      requires Valid()
      modifies `head, `nextId, `list, `ticks, SetOf(list)`prev, SetOf(list)`id
      ensures Valid() && list == added + old(list)
      ensures forall t :: t in added ==> fresh(t) && t.born >= old(nextId)
      ensures View() == DoAll(old(View()), ops, clock)
    {
      hide Valid, View, Do, DoAll;
      ghost var w := View();
      added := [];
      NoOps(w, ops, clock);
      var i := 0;
      while i < |ops|
        invariant i <= |ops| && Valid() && nextId >= old(nextId)
        invariant list == added + old(list) && forall t :: t in added ==> fresh(t) && t.born >= old(nextId)
        invariant View() == DoAll(w, ops[..i], clock)
      {
        OneMoreOp(w, ops, i, clock);
        ghost var more := DoOne(ops[i], clock);
        added := more + added;
        i := i + 1;
      }
    }

    /** A callback is made; `script(n)` is what the n-th one does and returns. */
    method Call(e: Event, clock: nat -> Time, script: nat -> Reaction)
      returns (retval: int, ghost added: seq<TimeEvent>)
      requires Valid()
      modifies `head, `nextId, `list, `ticks, `log, SetOf(list)`prev, SetOf(list)`id
      ensures Valid() && list == added + old(list)
      ensures forall t :: t in added ==> fresh(t) && t.born >= old(nextId)
      ensures View() == Callback(old(View()), e, clock, script) && retval == script(|old(log)|).retval
    {
      hide Fore, Distinct, Ordered, Values, DoAll;
      var reaction := script(|log|);
      log := log + [e];
      added := Perform(reaction.ops, clock);
      retval := reaction.retval;
    }

    /** Half of the unlinking of `te`: the entry before it now leads to the entry behind it. */
    method LinkNext(te: TimeEvent, ghost front: seq<TimeEvent>)
      requires Back(head, front, te) && te.prev == Last(front) && te !in front
      requires front != [] ==> Last(front) !in front[..|front| - 1]
      modifies `head, SetOf(front)`next
      ensures Back(head, front, te.next)
    {
      if te.prev != null {
        te.prev.next := te.next;
        assert Back(head, front[..|front| - 1], front[|front| - 1]);
      } else {
        head := te.next;
      }
    }

    /** The other half: the entry behind it leads back to the entry before it. */
    method LinkPrev(te: TimeEvent, ghost rest: seq<TimeEvent>)
      requires Fore(te, te.next, rest) && te !in rest && (rest != [] ==> rest[0] !in rest[1..])
      modifies SetOf(rest)`prev
      ensures Fore(te.prev, te.next, rest)
    {
      if te.next != null {
        te.next.prev := te.prev;
        assert Fore(rest[0], rest[0].next, rest[1..]);
      }
    }

    /** The neighbours of `te` are linked with each other. */
    method Relink(te: TimeEvent, ghost front: seq<TimeEvent>, ghost rest: seq<TimeEvent>)
      requires Fore(null, head, front + [te] + rest) && Distinct(front + [te] + rest)
      modifies `head, SetOf(front)`next, SetOf(rest)`prev
      ensures Fore(null, head, front + rest) && te.next == old(te.next) == First(rest)
    {
      hide Distinct, Back;
      assert front + [te] + rest == front + ([te] + rest);
      Separate(front, te, rest);
      Cut(head, front, [te] + rest);
      assert ([te] + rest)[1..] == rest;
      FirstOf(te, rest);
      LinkNext(te, front);
      LinkPrev(te, rest);
      Cut(head, front, rest);
    }

    /** The unlinking of the entry `te` in the middle of the list. */
    method Unlink(te: TimeEvent, ghost front: seq<TimeEvent>, ghost rest: seq<TimeEvent>)
      requires Valid() && list == front + [te] + rest
      modifies `head, `list, SetOf(list)`prev, SetOf(list)`next
      ensures Valid() && list == front + rest && te.next == old(te.next) == First(rest)
      ensures Values(list) == old(Values(list))[..|front|] + old(Values(list))[|front| + 1..]
    {
      hide Fore, Distinct, Ordered, Values;
      ghost var after := Values(front + rest);
      WithoutOne(front, te, rest, nextId);
      Relink(te, front, rest);
      assert Values(front + rest) == after;
      list := front + rest;
    }

    /** `aeSearchNearestTimer` */
    method SearchNearestTimer() returns (nearest: TimeEvent?)
      requires Valid()
      ensures nearest == null <==> list == []
      ensures nearest != null ==> nearest in list && forall t :: t in list ==> !Earlier(t.when, nearest.when)
    {
      hide Fore, Distinct, Ordered, Values, Reached;
      Begin(head, list);
      var te := head;
      ghost var i := 0;
      nearest := null;
      while te != null
        invariant i <= |list| && Reached(list, i, te)
        invariant nearest == null <==> i == 0
        invariant nearest != null ==> nearest in list
        invariant nearest != null ==> forall k :: 0 <= k < i ==> !Earlier(list[k].when, nearest.when)
        decreases |list| - i
      {
        Onward(list, i, te);
        if nearest == null || Earlier(te.when, nearest.when) {
          nearest := te;
        }
        te := te.next;
        i := i + 1;
      }
      Onward(list, i, te);
    }

    /** The branch for an entry that is marked: it is unlinked, finalized and freed. */
    method VisitMarked(te: TimeEvent, ghost front: seq<TimeEvent>, ghost rest: seq<TimeEvent>, clock: nat -> Time,
                       script: nat -> Reaction)
      returns (next: TimeEvent?, ghost added: seq<TimeEvent>)
      requires Valid() && list == front + [te] + rest
      modifies `head, `nextId, `list, `ticks, `log, SetOf(list)`prev, SetOf(list)`next, SetOf(list)`id
      ensures Valid() && list == added + front + rest && next == First(rest)
      ensures forall t :: t in added ==> fresh(t) && t.born >= old(nextId)
      ensures View() == Removed(old(View()), |rest| + 1, clock, script)
    {
      hide Fore, Distinct, Ordered, Values, Callback;
      PlaceOf(te, front, rest);
      next := te.next;
      Unlink(te, front, rest);
      added := [];
      assert forall t :: t in front + rest ==> t in front + [te] + rest;
      if te.finalizer {
        var retval;
        retval, added := Call(Finalized(te.born), clock, script);
      }
      Joined(added, front, rest);
    }

    /** The entry is set to fire at another time. */
    method Set(te: TimeEvent, when: Time, ghost i: nat)
      requires Valid() && i < |list| && te == list[i]
      modifies te`when
      ensures Valid() && Values(list) == old(Values(list))[i := old(Value(te)).(when := when)]
    {
      hide Fore, Ordered;
      OthersDiffer(list, i);
      hide Distinct, Values;
      ghost var before := Values(list);
      OrderedWith(before, nextId, i, Value(te).(when := when));
      te.when := when;
      assert Values(list) == before[i := before[i].(when := when)];
    }

    /** The clock has gone back: every timer is to fire as soon as possible. */
    method ForceAll()
      requires Valid()
      modifies SetOf(list)`when
      ensures Valid() && Values(list) == Forced(old(Values(list)))
    {
      hide Fore, Distinct, Ordered, Values, Reached, Partly;
      ghost var before := Values(list);
      Begin(head, list);
      AllForced(before);
      var te := head;
      ghost var i := 0;
      while te != null
        invariant Valid() && i <= |list| && Reached(list, i, te)
        invariant Values(list) == Partly(before, i)
        decreases |list| - i
      {
        Onward(list, i, te);
        OneMoreForced(before, i);
        Set(te, Time(0, te.when.ms), i);
        te := te.next;
        i := i + 1;
      }
      Onward(list, i, te);
    }

    /** The entry has fired and is set again, or marked. */
    method Settle(te: TimeEvent, retval: int, ghost front: seq<TimeEvent>, ghost rest: seq<TimeEvent>,
                  clock: nat -> Time)
      requires Valid() && list == front + [te] + rest
      modifies `ticks, te`when, te`id
      ensures Valid() && View() == Settled(old(View()), |rest| + 1, retval, clock)
    {
      hide Fore, Distinct, Ordered, Later, Values;
      PlaceOf(te, front, rest);
      if retval != NOMORE {
        var now := GetTime(clock);
        Set(te, Later(now, retval), |front|);
      } else {
        Mark(te, |front|);
      }
    }

    /** The callback of an entry that is due. */
    method FireTimer(te: TimeEvent, ghost front: seq<TimeEvent>, ghost rest: seq<TimeEvent>, clock: nat -> Time,
                     script: nat -> Reaction)
      returns (ghost added: seq<TimeEvent>)
      requires Valid() && list == front + [te] + rest
      modifies `head, `nextId, `list, `ticks, `log, te`when, SetOf(list)`prev, SetOf(list)`id
      ensures Valid() && list == added + front + [te] + rest
      ensures forall t :: t in added ==> fresh(t) && t.born >= old(nextId)
      ensures View() == Fire(old(View()), |rest| + 1, clock, script)
    {
      hide Fore, Distinct, Ordered, Later, Values, Callback, Settled;
      PlaceOf(te, front, rest);
      var id := te.id;
      var retval;
      retval, added := Call(Fired(id), clock, script);
      Joined(added, front, [te] + rest);
      Joined(added + front, [te], rest);
      Joined(front, [te], rest);
      Settle(te, retval, added + front, rest, clock);
    }

    /** The branch for an entry that is not marked. */
    method VisitLive(te: TimeEvent, ghost front: seq<TimeEvent>, ghost rest: seq<TimeEvent>, clock: nat -> Time,
                     script: nat -> Reaction)
      returns (fired: bool, next: TimeEvent?, ghost added: seq<TimeEvent>)
      requires Valid() && list == front + [te] + rest && te.id != DELETED
      modifies `head, `nextId, `list, `ticks, `log, te`when, SetOf(list)`prev, SetOf(list)`id
      ensures Valid() && list == added + front + [te] + rest && next == First(rest)
      ensures forall t :: t in added ==> fresh(t) && t.born >= old(nextId)
      ensures View() == Visit(old(View()), |rest| + 1, clock, script)
      ensures fired == Due(clock(old(ticks)), old(te.when))
    {
      hide Fore, Distinct, Ordered, Values, Fire, Due;
      PlaceOf(te, front, rest);
      var now := GetTime(clock);
      fired := false;
      added := [];
      if Due(now, te.when) {
        added := FireTimer(te, front, rest, clock, script);
        fired := true;
      }
      assert list == added + front + [te] + rest;
      NextInList(head, added + front, te, rest);
      next := te.next;
    }

    /** The body of the traversal. */
    method VisitNext(te: TimeEvent, maxId: int, ghost front: seq<TimeEvent>, ghost rest: seq<TimeEvent>,
                     clock: nat -> Time, script: nat -> Reaction)
      returns (fired: bool, next: TimeEvent?, ghost front': seq<TimeEvent>)
      requires Valid() && list == front + [te] + rest && te.born <= maxId
      modifies `head, `nextId, `list, `ticks, `log, te`when, SetOf(list)`prev, SetOf(list)`next, SetOf(list)`id
      ensures Valid() && list == front' + rest && next == First(rest)
      ensures forall t :: t in front' ==> t in old(list) || (fresh(t) && t.born >= old(nextId))
      ensures View() == Visit(old(View()), |rest| + 1, clock, script)
      ensures fired == (old(te.id) != DELETED && Due(clock(old(ticks)), old(te.when)))
    {
      hide Fore, Distinct, Ordered, Values, Fire, Removed, Due;
      ghost var added;
      PlaceOf(te, front, rest);
      if te.id == DELETED {
        fired := false;
        next, added := VisitMarked(te, front, rest, clock, script);
        front' := added + front;
      } else if te.id > maxId {
        // a timer created meanwhile: these are at the front of the list and never met
        OwnId(View(), |rest| + 1);
        assert false;
      } else {
        fired, next, added := VisitLive(te, front, rest, clock, script);
        front' := added + front + [te];
      }
    }

    /** In the middle of the traversal of the timers `w`: `rest` has not been reached. */
    ghost predicate Underway(te: TimeEvent?, maxId: int, w: World, front: seq<TimeEvent>, rest: seq<TimeEvent>,
                             clock: nat -> Time, script: nat -> Reaction)
      reads this, list
    {
      && Valid() && list == front + rest && te == First(rest) && |rest| <= |w.timers|
      && w.nextId <= nextId && (forall t :: t in rest ==> t.born <= maxId)
      && View() == Pass(w, |w.timers| - |rest|, clock, script)
    }

    /** One step of the traversal. */
    method Step(te: TimeEvent, maxId: int, ghost w: World, ghost front: seq<TimeEvent>, ghost rest: seq<TimeEvent>,
                clock: nat -> Time, script: nat -> Reaction)
      returns (fired: bool, next: TimeEvent?, ghost front': seq<TimeEvent>)
      requires Underway(te, maxId, w, front, rest, clock, script)
      modifies `head, `nextId, `list, `ticks, `log, te`when, SetOf(list)`prev, SetOf(list)`next, SetOf(list)`id
      ensures rest != [] && Underway(next, maxId, w, front', rest[1..], clock, script)
      ensures forall t :: t in list ==> t in old(list) || (fresh(t) && t.born >= w.nextId)
      ensures Calls(log) == Calls(old(log)) + if fired then 1 else 0
    {
      hide Fore, Distinct, Ordered, Values, Visit, Due, Calls;
      assert rest == [te] + rest[1..];
      assert list == front + [te] + rest[1..];
      PlaceOf(te, front, rest[1..]);
      NextVisit(w, |w.timers| - |rest|, clock, script);
      VisitAt(View(), |rest|, 0, clock, script);
      ghost var before := log;
      fired, next, front' := VisitNext(te, maxId, front, rest[1..], clock, script);
      CallsMore(before, old(Value(te)), clock(old(ticks)));
    }

    /** The traversal itself. */
    method Traverse(clock: nat -> Time, script: nat -> Reaction) returns (processed: nat)
      requires Valid()
      modifies `head, `nextId, `list, `ticks, `log, SetOf(list)
      ensures Valid() && View() == Pass(old(View()), |old(list)|, clock, script)
      ensures Calls(log) == Calls(old(log)) + processed
      ensures forall t :: t in list ==> t in old(list) || (fresh(t) && t.born >= old(nextId))
    {
      hide Underway, Valid, Pass, Calls, Values;
      ghost var w, front, rest := View(), [], list;
      var te := head;
      var maxId := nextId - 1;
      processed := 0;
      Starts(clock, script);
      while te != null
        invariant Underway(te, maxId, w, front, rest, clock, script)
        invariant Calls(log) == Calls(old(log)) + processed
        invariant forall t :: t in list ==> t in old(list) || (fresh(t) && t.born >= old(nextId))
        decreases |rest|
      {
        TeInList(te, maxId, w, front, rest, clock, script);
        var fired;
        fired, te, front := Step(te, maxId, w, front, rest, clock, script);
        rest := rest[1..];
        if fired {
          processed := processed + 1;
        }
      }
      AtTheEnd(maxId, w, front, rest, clock, script);
    }

    lemma TeInList(te: TimeEvent, maxId: int, w: World, front: seq<TimeEvent>, rest: seq<TimeEvent>,
                   clock: nat -> Time, script: nat -> Reaction)
      requires Underway(te, maxId, w, front, rest, clock, script)
      ensures te in list
    {
      hide Valid, View, Pass;
      assert rest[0] in list;
    }

    lemma AtTheEnd(maxId: int, w: World, front: seq<TimeEvent>, rest: seq<TimeEvent>,
                   clock: nat -> Time, script: nat -> Reaction)
      requires Underway(null, maxId, w, front, rest, clock, script)
      ensures Valid() && View() == Pass(w, |w.timers|, clock, script)
    {
      hide Valid, View, Pass;
      assert rest == [];
    }

    lemma Starts(clock: nat -> Time, script: nat -> Reaction)
      requires Valid()
      ensures Underway(head, nextId - 1, View(), [], list, clock, script)
    {
      FirstIs(null, head, list);
      forall t | t in list
        ensures t.born < nextId
      {
        var k :| 0 <= k < |list| && list[k] == t;
        assert Values(list)[k].born == t.born;
      }
    }

    /** `processTimeEvents`: the list afterwards, the times its entries are set for, the callbacks made and the readings
        of the clock are those of the pass, whatever the callbacks add and delete meanwhile. */
    method ProcessTimeEvents(now: int, clock: nat -> Time, script: nat -> Reaction) returns (processed: nat)
      requires Valid()
      modifies `head, `nextId, `lastTime, `list, `ticks, `log, SetOf(list)
      ensures Valid() && lastTime == now
      ensures View() == Processed(old(View()), now < old(lastTime), clock, script)
      ensures Calls(log) == Calls(old(log)) + processed
      ensures forall t :: t in list ==> t in old(list) || (fresh(t) && t.born >= old(nextId))
    {
      hide Valid, Pass, Calls, Values;
      if now < lastTime {
        ForceAll();
      }
      lastTime := now;
      processed := Traverse(clock, script);
    }
  }

  /** Where an entry is in the list of values. */
  lemma PlaceOf(te: TimeEvent, front: seq<TimeEvent>, rest: seq<TimeEvent>)
    ensures var ts := Values(front + [te] + rest);
            |ts| == |front| + |rest| + 1 && ts[|ts| - |rest| - 1] == Value(te) && te in front + [te] + rest
  {
    assert (front + [te] + rest)[|front|] == te;
  }

  lemma OthersDiffer(s: seq<TimeEvent>, n: nat)
    requires Distinct(s) && n < |s|
    ensures forall k :: 0 <= k < |s| && k != n ==> s[k] != s[n]
  {
  }

  lemma FirstIs(p: TimeEvent?, h: TimeEvent?, s: seq<TimeEvent>)
    requires Fore(p, h, s)
    ensures h == First(s)
  {
  }

  /** The order of `aeSearchNearestTimer`. */
  predicate Earlier(a: Time, b: Time) {
    a.sec < b.sec || (a.sec == b.sec && a.ms < b.ms)
  }

  /** It is that of time, for times in normal form. */
  lemma EarlierExactly(a: Time, b: Time)
    requires Normal(a) && Normal(b)
    ensures Earlier(a, b) <==> 1000 * a.sec + a.ms < 1000 * b.sec + b.ms
  {
  }
}
