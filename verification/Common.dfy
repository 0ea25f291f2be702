/** What several modules share. */
module Options {

  datatype Option<+T> = None | Some(value: T)
}

/** Sequences without repetition, and their elements. */
module Lists {

  predicate Distinct<T(==)>(s: seq<T>) {
    forall i, j :: 0 <= i < j < |s| ==> s[i] != s[j]
  }

  function SetOf<T>(s: seq<T>): set<T> {
    set x | x in s
  }
}

/** Integer division and remainder as in C: towards zero. */
module Division {

  function Quotient(a: int, b: int): int
    requires b > 0
  {
    if a >= 0 then a / b else -(-a / b)
  }

  function Remainder(a: int, b: int): int
    requires b > 0
  {
    a - b * Quotient(a, b)
  }
}

/** What the system answers to reads and writes on a socket that does not block. */
module Sockets {

  datatype Written = Wrote(n: nat) | WriteBlocked | WriteFailed

  datatype Got = GotBytes(bytes: string) | GotEnd | ReadBlocked | ReadFailed
}
