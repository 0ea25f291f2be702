/** The event loop: the table of file events, its back ends, and the dispatch of what is ready. */
module EventLoop {
  import opened EventMasks
  import opened Options

  const FD_SETSIZE: int := 1024
  const AE_OK: int := 0
  const AE_ERR: int := -1

  class EventLoop {
    var setsize: int
    var maxfd: int
    var events: array<FileEvent>
    var fired: array<Fired>
    var backend: Backend
    var log: seq<Call>     // the handlers called so far

    ghost predicate Valid()
      reads `setsize, `maxfd, `events, `backend, `fired, events
    {
      setsize == events.Length == fired.Length && IsMaxFd(events[..], maxfd) && Agrees(backend, events[..])
    }

    constructor (setsize: nat, epoll: bool)
      ensures Valid() && fresh(events) && fresh(fired) && log == [] && maxfd == -1 && this.setsize == setsize
              && backend.Epoll? == epoll
      ensures forall fd :: 0 <= fd < setsize ==> events[fd].mask == NONE
    {
      this.setsize := setsize;
      maxfd := -1;
      events := new FileEvent[setsize](i => UNUSED);
      fired := new Fired[setsize](i => Fired(0, NONE));
      log := [];
      backend := if epoll then Epoll(map[]) else Select({}, {});
    }

    /** `aeApiAddEvent` of the back end in use. */
    method ApiAddEvent(fd: int, mask: Mask) returns (rc: int)
      requires 0 <= fd < events.Length
      modifies `backend
      ensures backend.Epoll? == old(backend.Epoll?)
      ensures var now := Or(mask, events[fd].mask);
              match old(backend)
              case Epoll(watched) =>
                if (events[fd].mask == NONE) == (fd in watched)
                then rc == -1 && backend == old(backend)
                else rc == 0 && backend.watched == watched[fd := Interest(now.readable, now.writable)]
              case Select(rfds, wfds) =>
                && rc == 0
                && backend.rfds == rfds + (if mask.readable then {fd} else {})
                && backend.wfds == wfds + (if mask.writable then {fd} else {})
    {
      match backend
      case Epoll(watched) =>
        var op := if events[fd].mask == NONE then CtlAdd else CtlMod;
        var now := Or(mask, events[fd].mask);   // merge old events
        var (watched', r) := EpollCtl(watched, op, fd, Interest(now.readable, now.writable));
        backend := Epoll(watched');
        rc := r;
      case Select(rfds, wfds) =>
        backend := Select(if mask.readable then rfds + {fd} else rfds, if mask.writable then wfds + {fd} else wfds);
        rc := 0;
    }

    /** `aeApiDelEvent` of the back end in use. */
    method ApiDelEvent(fd: int, delmask: Mask)
      requires 0 <= fd < events.Length
      modifies `backend
      ensures backend.Epoll? == old(backend.Epoll?)
      ensures var left := Without(events[fd].mask, delmask);
              match old(backend)
              case Epoll(watched) =>
                && (fd !in watched ==> backend == old(backend))
                && (fd in watched && left != NONE ==>
                      backend.watched == watched[fd := Interest(left.readable, left.writable)])
                && (fd in watched && left == NONE ==> backend.watched == watched - {fd})
              case Select(rfds, wfds) =>
                && backend.rfds == rfds - (if delmask.readable then {fd} else {})
                && backend.wfds == wfds - (if delmask.writable then {fd} else {})
    {
      match backend
      case Epoll(watched) =>
        var left := Without(events[fd].mask, delmask);
        var e := Interest(left.readable, left.writable);
        var (watched', _) := EpollCtl(watched, if left != NONE then CtlMod else CtlDel, fd, e);
        backend := Epoll(watched');
      case Select(rfds, wfds) =>
        backend := Select(if delmask.readable then rfds - {fd} else rfds, if delmask.writable then wfds - {fd}
                          else wfds);
    }

    /** `aeCreateFileEvent`. The loop stays in order exactly if something is registered then: an empty mask for an
        unregistered descriptor leaves a trace in the kernel or in `maxfd`. */
    method CreateFileEvent(fd: int, mask: Mask, proc: Pointer, clientData: Pointer) returns (rc: int)
      requires Valid() && 0 <= fd
      modifies `backend, `maxfd, events
      ensures rc == if fd >= setsize then -1 else 0
      ensures rc == -1 ==> events[..] == old(events[..]) && maxfd == old(maxfd) && backend == old(backend)
      ensures rc == 0 ==>
                && events[..] == old(events[..])[fd := Created(old(events[fd]), mask, proc, clientData)]
                && maxfd == if fd > old(maxfd) then fd else old(maxfd)
      ensures Valid() <==> fd >= setsize || Or(mask, old(events[..])[fd].mask) != NONE
                           || (backend.Select? && fd <= old(maxfd))
    {
      if fd >= setsize {
        return AE_ERR;
      }
      hide IsMaxFd;
      ghost var before, b := events[..], backend;
      if b.Epoll? {
        WatchedIsRegistered(b, before, fd);
      }
      hide Agrees;
      rc := ApiAddEvent(fd, mask);
      if rc == -1 {
        return AE_ERR;
      }
      var fe := events[fd];
      fe := fe.(mask := Or(fe.mask, mask));
      if mask.readable {
        fe := fe.(rproc := proc);
      }
      if mask.writable {
        fe := fe.(wproc := proc);
      }
      events[fd] := fe.(clientData := clientData);
      AgreesWith(b, backend, before, fd, mask, events[fd]);
      MaxFdWith(before, maxfd, fd, events[fd]);
      if fd > maxfd {
        maxfd := fd;
      }
    }

    /** `aeDeleteFileEvent` */
    method DeleteFileEvent(fd: int, mask: Mask)
      requires Valid() && 0 <= fd
      modifies `backend, `maxfd, events
      ensures Valid()
      ensures events[..] == if fd < setsize then old(events[..])[fd := Deleted(old(events[..])[fd], mask)]
                            else old(events[..])
    {
      if fd >= setsize {
        return;
      }
      var fe := events[fd];
      if fe.mask == NONE {
        return;
      }
      // always remove AE_BARRIER if set when AE_WRITABLE is removed
      var delmask := if mask.writable then mask.(barrier := true) else mask;
      hide Agrees;
      ghost var before := events[..];
      ApiDelEvent(fd, delmask);
      events[fd] := fe.(mask := Without(fe.mask, delmask));
      AgreesWithout(old(backend), backend, before, fd, delmask);
      if fd == maxfd && events[fd].mask == NONE {
        UpdateMaxFd();
      }
    }

    /** The largest descriptor is no longer registered. */
    method UpdateMaxFd()
      requires 0 <= maxfd < events.Length && forall k :: maxfd <= k < events.Length ==> events[k].mask == NONE
      modifies `maxfd
      ensures IsMaxFd(events[..], maxfd)
    {
      var j := maxfd - 1;
      while j >= 0
        invariant -1 <= j < maxfd && forall k :: j < k < events.Length ==> events[k].mask == NONE
      {
        if events[j].mask != NONE {
          break;
        }
        j := j - 1;
      }
      maxfd := j;
    }

    /** `aeResizeSetSize` */
    method ResizeSetSize(n: nat) returns (rc: int)
      requires Valid()
      modifies `setsize, `events, `fired
      ensures Valid() && maxfd == old(maxfd)
      ensures rc == if n == old(setsize) || (old(maxfd) < n && (backend.Epoll? || n < 1024)) then 0 else -1
      ensures setsize == if rc == 0 then n else old(setsize)
      ensures forall fd :: Registered(events[..], fd) <==> old(Registered(events[..], fd))
      ensures forall fd :: old(Registered(events[..], fd)) ==> events[..][fd] == old(events[..])[fd]
    {
      if n == setsize {
        return AE_OK;
      }
      if maxfd >= n {
        return AE_ERR;
      }
      if backend.Select? && n >= FD_SETSIZE {
        return AE_ERR;
      }
      var kept := events[..];
      var size := setsize;
      events := new FileEvent[n](i requires 0 <= i => if i < |kept| then kept[i] else UNUSED);
      fired := new Fired[n](i => Fired(0, NONE));
      setsize := n;
      // initialise the new slots
      var i := maxfd + 1;
      while i < n
        invariant maxfd < i <= n && events.Length == n
        invariant forall k :: 0 <= k <= maxfd ==> events[k] == kept[k]
        invariant forall k :: maxfd < k < i ==> events[k].mask == NONE
        modifies events
      {
        events[i] := events[i].(mask := NONE);
        i := i + 1;
      }
      rc := AE_OK;
    }

    /** `aeApiPoll` of the epoll back end; `report` is the kernel's answer. */
    method PollEpoll(report: seq<Report>) returns (n: int)
      requires Valid() && backend.Epoll? && EpollPromise(backend.watched, report, setsize)
      modifies fired
      ensures n == |report| <= setsize
      ensures forall j :: 0 <= j < n ==>
                && fired[j].fd == report[j].fd && !fired[j].mask.barrier && fired[j].mask.readable == report[j].input
                && fired[j].mask.writable == (report[j].output || report[j].error || report[j].hangup)
      ensures forall j :: 0 <= j < n ==> fired[j] == Fired(report[j].fd, report[j].Meaning())
      ensures FiredOk(fired[..n], events[..])
    {
      n := |report|;
      var j := 0;
      while j < n
        invariant 0 <= j <= n && forall k :: 0 <= k < j ==> fired[k] == Fired(report[k].fd, report[k].Meaning())
      {
        var e := report[j];
        var mask := NONE;
        if e.input { mask := mask.(readable := true); }
        if e.output { mask := mask.(writable := true); }
        if e.error { mask := mask.(writable := true); }
        if e.hangup { mask := mask.(writable := true); }
        fired[j] := Fired(e.fd, mask);
        j := j + 1;
      }
    }

    /** `aeApiPoll` of the select back end; the kernel has left `rs` and `ws` in the two sets. Every
        registered descriptor is reported, even one that is not ready. */
    method PollSelect(rs: set<int>, ws: set<int>) returns (n: int)
      requires Valid() && backend.Select? && rs <= backend.rfds && ws <= backend.wfds
      modifies fired
      ensures 0 <= n <= setsize && FiredOk(fired[..n], events[..])
      ensures n == 0 <==> rs + ws == {}
      ensures rs + ws != {} ==> forall fd :: Registered(events[..], fd) ==> Fired(fd, Ready(fd, rs, ws)) in fired[..n]
      ensures forall j :: 0 <= j < n ==> fired[j].mask == Ready(fired[j].fd, rs, ws)
      ensures forall j :: 0 <= j < n ==>
                && fired[j].mask.readable == (fired[j].fd in rs) && fired[j].mask.writable == (fired[j].fd in ws)
    {
      n := 0;
      if |rs| + |ws| > 0 {
        n := Scan(rs, ws);
        ghost var fd := Pick(rs + ws);
        assert Registered(events[..], fd);
      }
    }

    /** The loop over the descriptor sets. */
    method Scan(rs: set<int>, ws: set<int>) returns (n: int)
      requires Valid() && backend.Select? && rs <= backend.rfds && ws <= backend.wfds
      modifies fired
      ensures 0 <= n <= setsize && FiredOk(fired[..n], events[..])
      ensures forall fd :: Registered(events[..], fd) ==> Fired(fd, Ready(fd, rs, ws)) in fired[..n]
      ensures forall j :: 0 <= j < n ==> fired[j].mask == Ready(fired[j].fd, rs, ws)
    {
      n := 0;
      ghost var done: seq<Fired> := [];
      var j := 0;
      while j <= maxfd
        invariant 0 <= n <= j <= maxfd + 1 && done == fired[..n]
        invariant forall k :: 0 <= k < n ==> FiredAs(done[k], events[..], rs, ws) && done[k].fd < j
        invariant forall a, b :: 0 <= a < b < n ==> done[a].fd != done[b].fd
        invariant forall fd :: Registered(events[..], fd) && fd < j ==> Fired(fd, Ready(fd, rs, ws)) in done
      {
        var fe := events[j];
        if fe.mask != NONE {
          var mask := NONE;
          if fe.mask.readable && j in rs { mask := mask.(readable := true); }
          if fe.mask.writable && j in ws { mask := mask.(writable := true); }
          assert mask == Ready(j, rs, ws);
          fired[n] := Fired(j, mask);
          done := done + [Fired(j, mask)];
          n := n + 1;
        }
        j := j + 1;
      }
    }

    /** What a handler does to the loop: it registers and deletes file events. */
    method Perform(ops: seq<Op>)
      requires Valid() && forall op :: op in ops ==> op.Fair()
      modifies `backend, `maxfd, events
      ensures Valid() && events[..] == ApplyAll(old(events[..]), ops)
    {
      hide ApplyAll;
      ghost var before := events[..];
      NoOps(before, ops);
      var i := 0;
      while i < |ops|
        invariant 0 <= i <= |ops| && Valid() && events[..] == ApplyAll(before, ops[..i])
      {
        OneMoreOp(before, ops, i);
        assert ops[i] in ops;
        DoOne(ops[i]);
        i := i + 1;
      }
    }

    method DoOne(op: Op)
      requires Valid() && op.Fair()
      modifies `backend, `maxfd, events
      ensures Valid() && events[..] == Apply(old(events[..]), op)
    {
      hide Agrees, IsMaxFd, Created, Deleted;
      match op {
        case Register(fd, mask, proc, clientData) =>
          OrNotNone(mask, if fd < setsize then events[fd].mask else NONE);
          var rc := CreateFileEvent(fd, mask, proc, clientData);
        case Delete(fd, mask) => DeleteFileEvent(fd, mask);
      }
    }

    /** One call of a handler. */
    method Invoke(fd: int, write: bool, ready: Mask, script: nat -> seq<Op>) returns (ghost c: Call)
      requires Valid() && 0 <= fd < setsize && FairScript(script)
      modifies `backend, `maxfd, `log, events
      ensures Valid() && log == old(log) + [c] && c == CallOf(fd, write, ready, old(events[fd]), events[fd])
      ensures events[..] == TableAfter(script, |old(log)|, |log|, old(events[..]))
      ensures Recorded(script, |old(log)|, old(events[..]), [c])
    {
      hide Agrees, IsMaxFd, ApplyAll;
      var fe := events[fd];
      var ops := script(|log|);
      Perform(ops);
      OneCall(script, |log|, old(events[..]));
      c := CallOf(fd, write, ready, fe, events[fd]);
      log := log + [CallOf(fd, write, ready, fe, events[fd])];
    }

    /** The body of the dispatch loop: one descriptor that fired. */
    method DispatchOne(fd: int, mask: Mask, script: nat -> seq<Op>) returns (ghost calls: seq<Call>)
      requires Valid() && 0 <= fd < setsize && FairScript(script)
      modifies `backend, `maxfd, `log, events
      ensures Valid() && log == old(log) + calls && Dispatched(fd, mask, old(events[fd]), calls)
      ensures events[..] == TableAfter(script, |old(log)|, |log|, old(events[..]))
      ensures Recorded(script, |old(log)|, old(events[..]), calls)
    {
      hide Agrees, IsMaxFd, FairScript, TableAfter, Recorded;
      ghost var start, before, table, c := |log|, events[..], events[..], *;
      NoneRecorded(script, start, before);
      var fired := 0;
      var invert := events[fd].mask.barrier;
      calls := [];
      // the readable event first, unless the calls are inverted
      if !invert && events[fd].mask.readable && mask.readable {
        c := Invoke(fd, false, mask, script);
        OneMoreCall(script, start, before, calls, c, table, events[..]);
        calls, table := calls + [c], events[..];
        fired := fired + 1;
      }
      if events[fd].mask.writable && mask.writable {
        if fired == 0 || events[fd].wproc != events[fd].rproc {
          c := Invoke(fd, true, mask, script);
          OneMoreCall(script, start, before, calls, c, table, events[..]);
          calls, table := calls + [c], events[..];
          fired := fired + 1;
        }
      }
      if invert && events[fd].mask.readable && mask.readable {
        if fired == 0 || events[fd].wproc != events[fd].rproc {
          c := Invoke(fd, false, mask, script);
          OneMoreCall(script, start, before, calls, c, table, events[..]);
          calls, table := calls + [c], events[..];
          fired := fired + 1;
        }
      }
    }

    /** `aeProcessEvents` behind the poll, for the first `n` descriptors that fired; `seen` lists their table
        entries when their turn came: what the handlers called before have left of them. */
    method Dispatch(n: nat, script: nat -> seq<Op>)
      returns (processed: nat, ghost calls: seq<seq<Call>>, ghost seen: seq<FileEvent>)
      requires Valid() && n <= setsize && FiredOk(fired[..n], events[..]) && FairScript(script)
      modifies `backend, `maxfd, `log, events
      ensures Valid() && processed == n == |calls| && log == old(log) + Flatten(calls)
      ensures Served(script, |old(log)|, fired[..n], old(events[..]), calls, seen)
      ensures events[..] == TableAfter(script, |old(log)|, |log|, old(events[..]))
      ensures Recorded(script, |old(log)|, old(events[..]), Flatten(calls))
    {
      hide FairScript, FiredOk, Agrees, IsMaxFd, Flatten, Served, Dispatched, Recorded, TableAfter;
      processed, calls, seen := 0, [], [];
      ghost var ready, before, start := fired[..n], events[..], |log|;
      NoneServed(script, start, ready, before);
      NoneRecorded(script, start, before);
      InTable(ready, before);
      assert log + [] == log;
      var j := 0;
      while j < n
        invariant 0 <= j <= n && Valid() && processed == j == |calls| && log == old(log) + Flatten(calls)
        invariant Served(script, start, ready, before, calls, seen)
        invariant n <= setsize && setsize == |before| && ready == fired[..n]
        invariant events[..] == TableAfter(script, start, |log|, before)
        invariant Recorded(script, start, before, Flatten(calls))
      {
        assert fired[j] == ready[j];
        ghost var e, middle := events[fired[j].fd], |log|;
        ghost var more := DispatchOne(fired[j].fd, fired[j].mask, script);
        FlattenMore(calls, more);
        ServedMore(script, start, ready, before, calls, seen, more, e);
        TableParts(script, start, middle, |log|, before);
        RecordedMore(script, start, before, Flatten(calls), more);
        calls, seen := calls + [more], seen + [e];
        processed := processed + 1;
        j := j + 1;
      }
    }

    /** The kernel's answer keeps its promises. */
    ghost predicate Plausible(answer: Answer)
      reads `backend, `setsize
    {
      match answer
      case EpollSays(report) => backend.Epoll? && EpollPromise(backend.watched, report, setsize)
      case SelectSays(rs, ws) => backend.Select? && rs <= backend.rfds && ws <= backend.wfds
    }

    /** `aeApiPoll` of the back end in use. */
    method Poll(answer: Answer) returns (n: int)
      requires Valid() && Plausible(answer)
      modifies fired
      ensures 0 <= n <= setsize && FiredOk(fired[..n], events[..]) && Reported(answer, events[..], fired[..n])
    {
      match answer {
        case EpollSays(report) => n := PollEpoll(report);
        case SelectSays(rs, ws) => n := PollSelect(rs, ws);
      }
    }

    /** `aeProcessEvents`: handlers are called for exactly the descriptors that are ready and, when their turn comes,
        registered. */
    method ProcessEvents(answer: Answer, script: nat -> seq<Op>)
      returns (processed: nat, ghost calls: seq<seq<Call>>, ghost seen: seq<FileEvent>)
      requires Valid() && Plausible(answer) && FairScript(script)
      modifies `backend, `maxfd, `log, events, fired
      ensures Valid() && processed == |calls| <= setsize && log == old(log) + Flatten(calls)
      ensures old(maxfd) == -1 ==> processed == 0
      ensures Served(script, |old(log)|, fired[..processed], old(events[..]), calls, seen)
      ensures events[..] == TableAfter(script, |old(log)|, |log|, old(events[..]))
      ensures Recorded(script, |old(log)|, old(events[..]), Flatten(calls))
      ensures old(maxfd) != -1 ==> Reported(answer, old(events[..]), fired[..processed])
    {
      if maxfd == -1 {
        NoneServed(script, |log|, fired[..0], events[..]);
        NoneRecorded(script, |log|, events[..]);
        return 0, [], [];
      }
      hide FairScript, FiredOk, Agrees, IsMaxFd, Flatten, Served, Reported, Recorded, TableAfter, EpollPromise;
      var n := Poll(answer);
      processed, calls, seen := Dispatch(n, script);
    }
  }

  lemma WatchedIsRegistered(b: Backend, events: seq<FileEvent>, fd: int)
    requires Agrees(b, events) && b.Epoll? && 0 <= fd < |events|
    ensures fd in b.watched <==> events[fd].mask != NONE
  {
  }

  /** What the kernel watches after a registration. */
  lemma AgreesWith(b: Backend, b': Backend, events: seq<FileEvent>, fd: int, mask: Mask, e: FileEvent)
    requires Agrees(b, events) && 0 <= fd < |events| && b.Epoll? == b'.Epoll? && e.mask == Or(events[fd].mask, mask)
    requires match b
             case Epoll(watched) => b'.watched == watched[fd := Interest(e.mask.readable, e.mask.writable)]
             case Select(rfds, wfds) =>
               && b'.rfds == rfds + (if mask.readable then {fd} else {})
               && b'.wfds == wfds + (if mask.writable then {fd} else {})
    ensures Agrees(b', events[fd := e]) <==> b.Select? || e.mask != NONE
  {
    if b.Epoll? {
      assert fd in b'.watched;
    }
  }

  lemma MaxFdWith(events: seq<FileEvent>, maxfd: int, fd: int, e: FileEvent)
    requires IsMaxFd(events, maxfd) && 0 <= fd < |events| && (events[fd].mask != NONE ==> e.mask != NONE)
    ensures IsMaxFd(events[fd := e], if fd > maxfd then fd else maxfd) <==> e.mask != NONE || fd <= maxfd
  {
  }

  /** What the kernel watches after a deletion. */
  lemma AgreesWithout(b: Backend, b': Backend, events: seq<FileEvent>, fd: int, delmask: Mask)
    requires Agrees(b, events) && Registered(events, fd) && b.Epoll? == b'.Epoll?
    requires var left := Without(events[fd].mask, delmask);
             match b
             case Epoll(watched) =>
               b'.watched == if left != NONE then watched[fd := Interest(left.readable, left.writable)]
                 else watched - {fd}
             case Select(rfds, wfds) =>
               && b'.rfds == rfds - (if delmask.readable then {fd} else {})
               && b'.wfds == wfds - (if delmask.writable then {fd} else {})
    ensures Agrees(b', events[fd := events[fd].(mask := Without(events[fd].mask, delmask))])
  {
  }

  /** A table entry after a registration. */
  function Created(e: FileEvent, mask: Mask, proc: Pointer, clientData: Pointer): FileEvent {
    FileEvent(Or(e.mask, mask), if mask.readable then proc else e.rproc, if mask.writable then proc else e.wproc,
              clientData)
  }

  /** A table entry after a deletion. */
  function Deleted(e: FileEvent, mask: Mask): FileEvent {
    e.(mask := Without(e.mask, if mask.writable then mask.(barrier := true) else mask))
  }

  /** A descriptor that is ready. */
  datatype Fired = Fired(fd: int, mask: Mask)

  /** A call of a handler: the table entry when it was called and when it returned. */
  datatype Call = Call(fd: int, write: bool, proc: Pointer, ready: Mask, before: FileEvent, after: FileEvent)

  /** One line of what epoll reports. */
  datatype Report = Report(fd: int, input: bool, output: bool, error: bool, hangup: bool) {
    /** Errors and hang-ups are reported to whoever wants to write. */
    function Meaning(): Mask {
      Mask(input, output || error || hangup, false)
    }
  }

  /** What epoll promises: distinct descriptors that are watched, in a state they are watched for. */
  ghost predicate EpollPromise(watched: map<int, Interest>, report: seq<Report>, room: int) {
    && |report| <= room
    && (forall j :: 0 <= j < |report| ==>
          && report[j].fd in watched
          && (report[j].input ==> watched[report[j].fd].input) && (report[j].output ==> watched[report[j].fd].output))
    && forall j, k :: 0 <= j < k < |report| ==> report[j].fd != report[k].fd
  }

  /** What a back end hands to the dispatcher: each registered descriptor at most once, readable only if
      somebody wants to read it. */
  ghost predicate FiredOk(fired: seq<Fired>, events: seq<FileEvent>) {
    && (forall j :: 0 <= j < |fired| ==>
          && Registered(events, fired[j].fd) && (fired[j].mask.readable ==> events[fired[j].fd].mask.readable)
          && !fired[j].mask.barrier)
    && forall j, k :: 0 <= j < k < |fired| ==> fired[j].fd != fired[k].fd
  }

  function Ready(fd: int, rs: set<int>, ws: set<int>): Mask {
    Mask(fd in rs, fd in ws, false)
  }

  predicate FiredAs(f: Fired, events: seq<FileEvent>, rs: set<int>, ws: set<int>) {
    Registered(events, f.fd) && f.mask == Ready(f.fd, rs, ws)
    && (f.mask.readable ==> events[f.fd].mask.readable)
  }

  datatype Op =
    | Register(fd: int, mask: Mask, proc: Pointer, clientData: Pointer)
    | Delete(fd: int, mask: Mask)
  {
    predicate Fair() {
      fd >= 0 && (Register? ==> mask != NONE)
    }
  }

  predicate Touches(ops: seq<Op>, fd: int) {
    exists k :: 0 <= k < |ops| && ops[k].fd == fd
  }

  /** None of the scripts of the calls from number `from` up to number `to` touches the registration of `fd`. */
  ghost predicate Untouched(script: nat -> seq<Op>, from: nat, to: nat, fd: int) {
    forall k: nat :: from <= k < to ==> !Touches(script(k), fd)
  }

  /** What an operation does to the table. */
  function Apply(events: seq<FileEvent>, op: Op): (events': seq<FileEvent>)
    ensures |events'| == |events|
  {
    if !(0 <= op.fd < |events|) then events
    else events[op.fd := match op
                         case Register(fd, mask, proc, clientData) => Created(events[fd], mask, proc, clientData)
                         case Delete(fd, mask) => Deleted(events[fd], mask)]
  }

  function ApplyAll(events: seq<FileEvent>, ops: seq<Op>): (events': seq<FileEvent>)
    ensures |events'| == |events|
  {
    if ops == [] then events else Apply(ApplyAll(events, ops[..|ops| - 1]), ops[|ops| - 1])
  }

  /** The table when `to` handlers have been called, if it was `events` when it had been `from`. */
  ghost function TableAfter(script: nat -> seq<Op>, from: nat, to: nat,
                            events: seq<FileEvent>): (events': seq<FileEvent>)
    requires from <= to
    ensures |events'| == |events|
  {
    if from == to then events else ApplyAll(TableAfter(script, from, to - 1, events), script(to - 1))
  }

  lemma {:induction false} TableParts(script: nat -> seq<Op>, from: nat, mid: nat, to: nat, events: seq<FileEvent>)
    requires from <= mid <= to
    ensures TableAfter(script, mid, to, TableAfter(script, from, mid, events)) == TableAfter(script, from, to, events)
  {
    hide ApplyAll;
    if mid < to {
      TableParts(script, from, mid, to - 1, events);
    }
  }

  // ----- what a history of registrations and deletions makes of an entry -----

  /** The operation registers the descriptor for writing (or reading). */
  predicate Registers(op: Op, fd: int, write: bool) {
    op.Register? && op.fd == fd && if write then op.mask.writable else op.mask.readable
  }

  predicate Deletes(op: Op, fd: int, write: bool) {
    op.Delete? && op.fd == fd && if write then op.mask.writable else op.mask.readable
  }

  /** The handler of the last registration for writing (or reading), if there is one. */
  function LastProc(ops: seq<Op>, fd: int, write: bool): Option<Pointer> {
    if ops == [] then None
    else
      var n := |ops| - 1;
      if Registers(ops[n], fd, write) then Some(ops[n].proc) else LastProc(ops[..n], fd, write)
  }

  /** The data of the last registration. */
  function LastData(ops: seq<Op>, fd: int): Option<Pointer> {
    if ops == [] then None
    else
      var n := |ops| - 1;
      if ops[n].Register? && ops[n].fd == fd then Some(ops[n].clientData) else LastData(ops[..n], fd)
  }

  /** Whether the descriptor is registered for writing (or reading), by the last operation about that. */
  predicate StaysFor(was: bool, ops: seq<Op>, fd: int, write: bool) {
    if ops == [] then was
    else
      var n := |ops| - 1;
      Registers(ops[n], fd, write) || (!Deletes(ops[n], fd, write) && StaysFor(was, ops[..n], fd, write))
  }

  function Given(p: Option<Pointer>, otherwise: Pointer): Pointer {
    match p
    case None => otherwise
    case Some(x) => x
  }

  /** One operation: a registration sets the handlers of its kinds and the data, and nothing else sets them. */
  lemma ApplyExactly(events: seq<FileEvent>, op: Op, fd: int)
    requires 0 <= fd < |events|
    ensures var e, e' := events[fd], Apply(events, op)[fd];
            && e'.rproc == (if Registers(op, fd, false) then op.proc else e.rproc)
            && e'.wproc == (if Registers(op, fd, true) then op.proc else e.wproc)
            && e'.clientData == (if op.Register? && op.fd == fd then op.clientData else e.clientData)
            && e'.mask.readable == (Registers(op, fd, false) || (e.mask.readable && !Deletes(op, fd, false)))
            && e'.mask.writable == (Registers(op, fd, true) || (e.mask.writable && !Deletes(op, fd, true)))
            && e'.mask.barrier == ((op.Register? && op.fd == fd && op.mask.barrier)
                                   || (e.mask.barrier && !Deletes(op, fd, true)
                                       && !(op.Delete? && op.fd == fd && op.mask.barrier)))
  {
  }

  /** Any number of operations: what counts is the last registration of each kind, and the last operation about it. */
  lemma {:induction false} HistoryExactly(events: seq<FileEvent>, ops: seq<Op>, fd: int)
    requires 0 <= fd < |events|
    ensures var e, e' := events[fd], ApplyAll(events, ops)[fd];
            && e'.rproc == Given(LastProc(ops, fd, false), e.rproc)
            && e'.wproc == Given(LastProc(ops, fd, true), e.wproc)
            && e'.clientData == Given(LastData(ops, fd), e.clientData)
            && e'.mask.readable == StaysFor(e.mask.readable, ops, fd, false)
            && e'.mask.writable == StaysFor(e.mask.writable, ops, fd, true)
  {
    hide Apply, Registers, Deletes;
    if ops != [] {
      var n := |ops| - 1;
      HistoryExactly(events, ops[..n], fd);
      ApplyExactly(ApplyAll(events, ops[..n]), ops[n], fd);
    }
  }

  /** All that the handlers called as number `from` up to number `to` do, in turn. */
  ghost function History(script: nat -> seq<Op>, from: nat, to: nat): seq<Op>
    requires from <= to
  {
    if from == to then [] else History(script, from, to - 1) + script(to - 1)
  }

  lemma {:induction false} ApplyBoth(events: seq<FileEvent>, a: seq<Op>, b: seq<Op>)
    ensures ApplyAll(events, a + b) == ApplyAll(ApplyAll(events, a), b)
  {
    hide Apply;
    if b == [] {
      assert a + b == a;
    } else {
      var n := |b| - 1;
      assert (a + b)[..|a| + n] == a + b[..n];
      ApplyBoth(events, a, b[..n]);
    }
  }

  lemma {:induction false} TableOfHistory(script: nat -> seq<Op>, from: nat, to: nat, events: seq<FileEvent>)
    requires from <= to
    ensures TableAfter(script, from, to, events) == ApplyAll(events, History(script, from, to))
  {
    hide ApplyAll;
    if from == to {
      var none: seq<Op> := [];
      NoOps(events, none);
      assert none[..0] == none;
    } else {
      TableOfHistory(script, from, to - 1, events);
      ApplyBoth(events, History(script, from, to - 1), script(to - 1));
    }
  }

  /** The handler called is the one given with the last registration of its kind for the descriptor, with the data of
      the last registration; and the descriptor is registered for that kind, by the last operation about it. */
  lemma LastRegistered(script: nat -> seq<Op>, start: nat, events: seq<FileEvent>, calls: seq<Call>, k: nat,
                       ready: Mask)
    requires Recorded(script, start, events, calls) && k < |calls| && Due(calls[k], calls[k].fd, ready)
    ensures var c, ops := calls[k], History(script, start, start + k);
            && 0 <= c.fd < |events|
            && var e := events[c.fd];
               && c.proc == Given(LastProc(ops, c.fd, c.write), if c.write then e.wproc else e.rproc)
               && c.before.clientData == Given(LastData(ops, c.fd), e.clientData)
               && StaysFor(if c.write then e.mask.writable else e.mask.readable, ops, c.fd, c.write)
  {
    hide TableAfter, LastProc, LastData, StaysFor, History, ApplyAll;
    TableOfHistory(script, start, start + k, events);
    HistoryExactly(events, History(script, start, start + k), calls[k].fd);
  }

  /** Who is registered for writing hears of errors and hang-ups: the write handler is called, and first if it is
      registered for nothing else. */
  lemma ErrorsReachWriters(report: Report, e: FileEvent, calls: seq<Call>)
    requires (report.error || report.hangup) && e.mask.writable && !e.mask.readable
    requires Dispatched(report.fd, report.Meaning(), e, calls)
    ensures calls != [] && calls[0].write && calls[0].proc == e.wproc
  {
    assert IsDue(e, report.Meaning(), true);
    assert calls[0] in calls;
  }

  /** The log of the calls records the table as it was before and after each of them. */
  ghost predicate Recorded(script: nat -> seq<Op>, start: nat, events: seq<FileEvent>, calls: seq<Call>) {
    forall k :: 0 <= k < |calls| ==>
      && 0 <= calls[k].fd < |events|
      && calls[k].before == TableAfter(script, start, start + k, events)[calls[k].fd]
      && calls[k].after == TableAfter(script, start, start + k + 1, events)[calls[k].fd]
  }

  lemma NoneRecorded(script: nat -> seq<Op>, start: nat, events: seq<FileEvent>)
    ensures Recorded(script, start, events, Flatten([])) && TableAfter(script, start, start, events) == events
  {
  }

  lemma RecordedMore(script: nat -> seq<Op>, start: nat, events: seq<FileEvent>, calls: seq<Call>, more: seq<Call>)
    requires Recorded(script, start, events, calls)
    requires Recorded(script, start + |calls|, TableAfter(script, start, start + |calls|, events), more)
    ensures Recorded(script, start, events, calls + more)
  {
    hide TableAfter;
    var mid := start + |calls|;
    forall k | |calls| <= k < |calls + more|
      ensures var c := (calls + more)[k];
              && 0 <= c.fd < |events| && c.before == TableAfter(script, start, start + k, events)[c.fd]
              && c.after == TableAfter(script, start, start + k + 1, events)[c.fd]
    {
      assert (calls + more)[k] == more[k - |calls|];
      TableParts(script, start, mid, start + k, events);
      TableParts(script, start, mid, start + k + 1, events);
    }
  }

  lemma OneCall(script: nat -> seq<Op>, n: nat, events: seq<FileEvent>)
    ensures TableAfter(script, n, n, events) == events
    ensures TableAfter(script, n, n + 1, events) == ApplyAll(events, script(n))
  {
  }

  lemma OneMoreCall(script: nat -> seq<Op>, start: nat, events: seq<FileEvent>, calls: seq<Call>, c: Call,
                    table: seq<FileEvent>, table': seq<FileEvent>)
    requires var n := start + |calls|;
             && Recorded(script, start, events, calls) && table == TableAfter(script, start, n, events)
             && Recorded(script, n, table, [c]) && table' == TableAfter(script, n, n + 1, table)
    ensures Recorded(script, start, events, calls + [c])
    ensures table' == TableAfter(script, start, start + |calls| + 1, events)
  {
    hide TableAfter, Recorded;
    RecordedMore(script, start, events, calls, [c]);
    TableParts(script, start, start + |calls|, start + |calls| + 1, events);
  }

  lemma NoOps(events: seq<FileEvent>, ops: seq<Op>)
    ensures ApplyAll(events, ops[..0]) == events && ops[..|ops|] == ops
  {
  }

  lemma OneMoreOp(events: seq<FileEvent>, ops: seq<Op>, i: nat)
    requires i < |ops|
    ensures ApplyAll(events, ops[..i + 1]) == Apply(ApplyAll(events, ops[..i]), ops[i])
  {
    assert ops[..i + 1][..i] == ops[..i];
  }

  lemma OrNotNone(a: Mask, b: Mask)
    ensures a != NONE ==> Or(a, b) != NONE
  {
  }

  lemma {:induction false} OthersKept(events: seq<FileEvent>, ops: seq<Op>, fd: int)
    requires 0 <= fd < |events| && !Touches(ops, fd)
    ensures ApplyAll(events, ops)[fd] == events[fd]
  {
    if ops != [] {
      var n := |ops| - 1;
      assert ops[n].fd != fd;
      assert forall k :: 0 <= k < n ==> ops[..n][k] == ops[k];
      OthersKept(events, ops[..n], fd);
    }
  }

  /** The entry of a descriptor that no handler has touched is as it was. */
  lemma {:induction false} UntouchedKept(script: nat -> seq<Op>, from: nat, to: nat, events: seq<FileEvent>, fd: int)
    requires from <= to && 0 <= fd < |events| && Untouched(script, from, to, fd)
    ensures TableAfter(script, from, to, events)[fd] == events[fd]
  {
    hide ApplyAll, Touches;
    if from < to {
      UntouchedKept(script, from, to - 1, events, fd);
      OthersKept(TableAfter(script, from, to - 1, events), script(to - 1), fd);
    }
  }

  /** What the back end makes of the kernel's answer. */
  ghost predicate Reported(answer: Answer, events: seq<FileEvent>, fired: seq<Fired>) {
    match answer
    case EpollSays(report) =>
      && |fired| == |report|
      && forall j :: 0 <= j < |fired| ==> fired[j] == Fired(report[j].fd, report[j].Meaning())
    case SelectSays(rs, ws) =>
      && (fired == [] <==> rs + ws == {})
      && (fired != [] ==> forall d :: Registered(events, d) ==> Fired(d, Ready(d, rs, ws)) in fired)
      && forall j :: 0 <= j < |fired| ==> fired[j].mask == Ready(fired[j].fd, rs, ws)
  }

  /** The turn of the descriptor `f`, with the table entry `e`, behind `earlier` calls of handlers. */
  ghost predicate Turn(script: nat -> seq<Op>, start: nat, earlier: nat, f: Fired, before: seq<FileEvent>,
                       calls: seq<Call>,
                       e: FileEvent)
  {
    && Dispatched(f.fd, f.mask, e, calls)
    && 0 <= f.fd < |before| && e == TableAfter(script, start, start + earlier, before)[f.fd]
  }

  /** Each descriptor that fired has had its turn: the calls made are those due by the entry `seen`, and that is what
      the handlers called before have left of the table at the start, `before`. */
  ghost predicate Served(script: nat -> seq<Op>, start: nat, fired: seq<Fired>, before: seq<FileEvent>,
                         calls: seq<seq<Call>>, seen: seq<FileEvent>)
  {
    && |calls| == |seen| <= |fired|
    && forall j :: 0 <= j < |calls| ==>
         Turn(script, start, |Flatten(calls[..j])|, fired[j], before, calls[j], seen[j])
  }

  lemma NoneServed(script: nat -> seq<Op>, start: nat, fired: seq<Fired>, before: seq<FileEvent>)
    ensures Served(script, start, fired, before, [], []) && Flatten([]) == []
  {
  }

  lemma ServedMore(script: nat -> seq<Op>, start: nat, fired: seq<Fired>, before: seq<FileEvent>,
                   calls: seq<seq<Call>>, seen: seq<FileEvent>, more: seq<Call>, e: FileEvent)
    requires Served(script, start, fired, before, calls, seen) && |calls| < |fired|
    requires Turn(script, start, |Flatten(calls)|, fired[|calls|], before, more, e)
    ensures Served(script, start, fired, before, calls + [more], seen + [e])
  {
    hide Turn;
    var calls', seen' := calls + [more], seen + [e];
    forall j | 0 <= j < |calls'|
      ensures Turn(script, start, |Flatten(calls'[..j])|, fired[j], before, calls'[j], seen'[j])
    {
      if j < |calls| {
        assert calls'[..j] == calls[..j];
      } else {
        assert calls'[..j] == calls;
      }
    }
  }

  lemma InTable(fired: seq<Fired>, events: seq<FileEvent>)
    requires FiredOk(fired, events)
    ensures forall f :: f in fired ==> 0 <= f.fd < |events|
  {
  }

  /** What the handlers do, as a function of the number of calls made before. */
  ghost predicate FairScript(script: nat -> seq<Op>) {
    forall n, op :: op in script(n) ==> op.Fair()
  }

  function CallOf(fd: int, write: bool, ready: Mask, before: FileEvent, after: FileEvent): Call {
    Call(fd, write, if write then before.wproc else before.rproc, ready, before, after)
  }

  lemma Pick<T>(s: set<T>) returns (x: T)
    requires s != {}
    ensures x in s
  {
    x :| x in s;
  }

  function Flatten(calls: seq<seq<Call>>): seq<Call> {
    if calls == [] then [] else Flatten(calls[..|calls| - 1]) + calls[|calls| - 1]
  }

  lemma FlattenMore(calls: seq<seq<Call>>, more: seq<Call>)
    ensures Flatten(calls + [more]) == Flatten(calls) + more
  {
    assert (calls + [more])[..|calls|] == calls;
  }

  /** A call that was due: the descriptor was ready for it, and still registered for it when it was made. */
  predicate Due(c: Call, fd: int, ready: Mask) {
    && c.fd == fd && c.ready == ready
    && (if c.write then ready.writable && c.before.mask.writable && c.proc == c.before.wproc
        else ready.readable && c.before.mask.readable && c.proc == c.before.rproc)
  }

  /** The calls for one descriptor when no handler touches its registration. */
  function Expected(e: FileEvent, ready: Mask): seq<bool> {
    var r, w := e.mask.readable && ready.readable, e.mask.writable && ready.writable;
    if r && w then
      if e.rproc == e.wproc then [e.mask.barrier] else [e.mask.barrier, !e.mask.barrier]
    else if r then [false] else if w then [true] else []
  }

  /** The descriptor is ready for writing (or reading), and registered for it. */
  predicate IsDue(e: FileEvent, ready: Mask, write: bool) {
    if write then e.mask.writable && ready.writable else e.mask.readable && ready.readable
  }

  /** What is promised about the calls for one descriptor, registered as `e` when its turn came. */
  predicate Dispatched(fd: int, ready: Mask, e: FileEvent, calls: seq<Call>) {
    var first := e.mask.barrier;   // the write handler comes first iff the barrier bit is set
    && |calls| <= 2
    && (forall c :: c in calls ==> Due(c, fd, ready))
    && (calls == [] <==> !IsDue(e, ready, true) && !IsDue(e, ready, false))
    && (calls != [] ==> calls[0].before == e && calls[0].write == if IsDue(e, ready, first) then first else !first)
    && (|calls| == 2 <==>
          && calls != [] && calls[0].write == first
          && IsDue(calls[0].after, ready, !first) && calls[0].after.rproc != calls[0].after.wproc)
    && (|calls| == 2 ==> calls[1].write == !first && calls[1].before == calls[0].after)
  }

  /** When no handler touches the registration, exactly the calls that were due at the start are made. */
  lemma UndisturbedCalls(script: nat -> seq<Op>, start: nat, events: seq<FileEvent>, fd: int, ready: Mask,
                         calls: seq<Call>)
    requires 0 <= fd < |events| && Dispatched(fd, ready, events[fd], calls) && Recorded(script, start, events, calls)
    requires Untouched(script, start, start + |calls|, fd)
    ensures |calls| == |Expected(events[fd], ready)|
    ensures forall k :: 0 <= k < |calls| ==> calls[k].write == Expected(events[fd], ready)[k]
  {
    hide TableAfter;
    forall k | 0 <= k < |calls|
      ensures calls[k].after == events[fd]
    {
      assert Due(calls[k], fd, ready);
      UntouchedKept(script, start, start + k + 1, events, fd);
    }
  }

  /** What the kernel says when it is asked what is ready. */
  datatype Answer = EpollSays(report: seq<Report>) | SelectSays(rs: set<int>, ws: set<int>)
}
