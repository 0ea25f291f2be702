/** Event masks, the table of registered events, and what the kernel is told about it. */
module EventMasks {

  /** `AE_READABLE`, `AE_WRITABLE` and `AE_BARRIER` as bits of a mask. */
  datatype Mask = Mask(readable: bool, writable: bool, barrier: bool)

  const NONE: Mask := Mask(false, false, false)

  function Or(a: Mask, b: Mask): Mask {
    Mask(a.readable || b.readable, a.writable || b.writable, a.barrier || b.barrier)
  }

  /** `a & ~b` */
  function Without(a: Mask, b: Mask): Mask {
    Mask(a.readable && !b.readable, a.writable && !b.writable, a.barrier && !b.barrier)
  }

  /** A function pointer or a client's pointer. */
  type Pointer = nat

  datatype FileEvent = FileEvent(mask: Mask, rproc: Pointer, wproc: Pointer, clientData: Pointer)

  const UNUSED: FileEvent := FileEvent(NONE, 0, 0, 0)

  /** What epoll watches a descriptor for: EPOLLIN and EPOLLOUT. */
  datatype Interest = Interest(input: bool, output: bool)

  /** What the back end has told the kernel: epoll's interest list, or the two sets for select. */
  datatype Backend =
    | Epoll(watched: map<int, Interest>)
    | Select(rfds: set<int>, wfds: set<int>)

  datatype CtlOp = CtlAdd | CtlMod | CtlDel

  /** `epoll_ctl`: adding what is there and changing or deleting what is not there fails. */
  function EpollCtl(watched: map<int, Interest>, op: CtlOp, fd: int, e: Interest): (map<int, Interest>, int) {
    match op
    case CtlAdd => if fd in watched then (watched, -1) else (watched[fd := e], 0)
    case CtlMod => if fd in watched then (watched[fd := e], 0) else (watched, -1)
    case CtlDel => if fd in watched then (watched - {fd}, 0) else (watched, -1)
  }

  predicate Registered(events: seq<FileEvent>, fd: int) {
    0 <= fd < |events| && events[fd].mask != NONE
  }

  /** The kernel watches exactly what the table says. */
  ghost predicate Agrees(b: Backend, events: seq<FileEvent>) {
    match b
    case Epoll(watched) =>
      && (forall fd :: fd in watched <==> Registered(events, fd))
      && forall fd :: fd in watched ==> watched[fd] == Interest(events[fd].mask.readable, events[fd].mask.writable)
    case Select(rfds, wfds) =>
      && (forall fd :: fd in rfds <==> 0 <= fd < |events| && events[fd].mask.readable)
      && (forall fd :: fd in wfds <==> 0 <= fd < |events| && events[fd].mask.writable)
  }

  /** `maxfd` is the largest registered descriptor, or -1. */
  ghost predicate IsMaxFd(events: seq<FileEvent>, maxfd: int) {
    && -1 <= maxfd < |events|
    && (maxfd >= 0 ==> events[maxfd].mask != NONE)
    && forall fd :: maxfd < fd < |events| ==> events[fd].mask == NONE
  }

  /** At most one descriptor is the largest. */
  lemma MaxFdUnique(events: seq<FileEvent>, a: int, b: int)
    requires IsMaxFd(events, a) && IsMaxFd(events, b)
    ensures a == b
  {
  }
}
