/** Content-Length values and chunk sizes are read exactly, or rejected. */
module HttpNumbers {
  import opened Bytes
  import opened HttpTypes
  import opened HttpAutomaton
  import opened HttpInvariant
  import opened HttpStream
  import opened HttpFeed
  import opened HttpNames

  /** The largest Content-Length that passes the conservative test of the parser. */
  const MAX_LENGTH: nat := (NO_LENGTH - 10) / 10 * 10 + 9
  /** The largest chunk size that does. */
  const MAX_CHUNK: nat := (NO_LENGTH - 16) / 16 * 16 + 15

  type Digit = n: nat | n < 10

  predicate AreDigits(d: string) {
    forall k :: 0 <= k < |d| ==> IsNum(d[k])
  }

  predicate AreHexDigits(d: string) {
    forall k :: 0 <= k < |d| ==> IsHex(d[k])
  }

  function HexDigit(c: char): nat
    requires IsHex(c)
  {
    if IsNum(c) then c as int - '0' as int
    else if 'a' <= c <= 'f' then c as int - 'a' as int + 10
    else c as int - 'A' as int + 10
  }

  /** The number written in decimal. */
  function Decimal(d: string): nat
    requires AreDigits(d)
  {
    if d == "" then 0 else 10 * Decimal(d[..|d| - 1]) + DigitValue(d[|d| - 1])
  }

  /** The number written in hexadecimal. */
  function Hexadecimal(d: string): nat
    requires AreHexDigits(d)
  {
    if d == "" then 0 else 16 * Hexadecimal(d[..|d| - 1]) + HexDigit(d[|d| - 1])
  }

  function DigitChar(n: Digit): char {
    (n + '0' as int) as char
  }

  function HexChar(n: nat): char
    requires n < 16
  {
    if n < 10 then DigitChar(n) else (n - 10 + 'a' as int) as char
  }

  function ToDecimal(n: nat): (d: string)
    ensures d != "" && AreDigits(d) && Decimal(d) == n
  {
    if n < 10 then
      assert Decimal([DigitChar(n)][..0]) == 0;
      [DigitChar(n)]
    else
      var w := ToDecimal(n / 10);
      var d := w + [DigitChar(n % 10)];
      assert d[..|d| - 1] == w;
      d
  }

  function ToHexadecimal(n: nat): (d: string)
    ensures d != "" && AreHexDigits(d) && Hexadecimal(d) == n
  {
    if n < 16 then
      assert Hexadecimal([HexChar(n)][..0]) == 0;
      [HexChar(n)]
    else
      var w := ToHexadecimal(n / 16);
      var d := w + [HexChar(n % 16)];
      assert d[..|d| - 1] == w;
      d
  }

  /** The parser behind the digits `d` of a Content-Length value, starting with the first. */
  function Lengthed(s: Abs, d: string, n: nat): Abs {
    Abs(s.r.(state := HeaderValue, hstate := ContentLengthNum, index := 0, clen := n,
             flags := s.r.flags.(contentLength := true)),
        Put(s.log, Data(Value, d)))
  }

  ghost predicate BeforeLength(s: Abs) {
    && (s.r.state.HeaderValueDiscardWs? || s.r.state.HeaderValueStart?)
    && s.r.hstate == ContentLength && !s.r.flags.contentLength && s.r.errno == OK
  }

  lemma FirstDigitAct(r: Regs, ch: char)
    requires (r.state.HeaderValueDiscardWs? || r.state.HeaderValueStart?) && r.hstate == ContentLength
    requires !r.flags.contentLength && IsNum(ch)
    ensures Transition(r, ch, false) ==
            Go(r.(state := HeaderValue, hstate := ContentLengthNum, index := 0, clen := DigitValue(ch),
                  flags := r.flags.(contentLength := true)), Open(Value), Quiet, Advance)
  {
  }

  lemma FirstDigit(s: Abs, ch: char)
    requires BeforeLength(s) && IsNum(ch)
    ensures ADo(s, ch) == ANext(Lengthed(s, [ch], DigitValue(ch)))
  {
    hide ADo, Put;
    FirstDigitAct(s.r, ch);
    DataByte(s, ch, Lengthed(s, [ch], DigitValue(ch)).r, Open(Value), Value);
  }

  lemma NextDigitAct(r: Regs, ch: char)
    requires r.state.HeaderValue? && r.hstate == ContentLengthNum && r.errno == OK && IsNum(ch)
    ensures Transition(r, ch, false) ==
            if (NO_LENGTH - 10) / 10 < r.clen
            then Fail(r.(hstate := ContentLengthNum, errno := InvalidContentLength), InvalidContentLength)
            else Go(r.(clen := 10 * r.clen + DigitValue(ch)), Keep, Quiet, Advance)
  {
    if (NO_LENGTH - 10) / 10 >= r.clen {
      ShiftedExact(r.clen, 10, DigitValue(ch));
    }
  }

  lemma NextDigit(s: Abs, d: string, n: nat, ch: char)
    requires s.r.errno == OK && IsNum(ch)
    ensures var x := ADo(Lengthed(s, d, n), ch);
            if (NO_LENGTH - 10) / 10 < n then x.AHalt? && !x.used && x.s.r.errno == InvalidContentLength
            else x == ANext(Lengthed(s, d + [ch], 10 * n + DigitValue(ch)))
  {
    var l := Lengthed(s, d, n);
    NextDigitAct(l.r, ch);
    hide Transition, Put;
    if (NO_LENGTH - 10) / 10 >= n {
      DataByte(l, ch, l.r.(clen := 10 * n + DigitValue(ch)), Keep, Value);
      PutTwice(s.log, Value, d, [ch]);
    }
  }

  ghost predicate LengthRejected(s: Abs, text: string) {
    ARun(s, text, 0).stopped && ARun(s, text, 0).s.r.errno == InvalidContentLength
  }

  /** A Content-Length value is read as the number it is, or rejected if it is larger than MAX_LENGTH. */
  lemma {:induction false} LengthExact(s: Abs, d: string, rest: string)
    requires BeforeLength(s) && d != "" && AreDigits(d)
    ensures MAX_LENGTH == 18446744073709551609 < NO_LENGTH
    ensures if Decimal(d) <= MAX_LENGTH then Through(s, d, Lengthed(s, d, Decimal(d)))
            else LengthRejected(s, d + rest)
  {
    hide ADo, ARun, Through, Lengthed, LengthRejected, IsNum;
    var n := |d| - 1;
    var w := d[..n];
    assert d == w + [d[n]];
    if n == 0 {
      assert d == [d[0]] && Decimal(d) == DigitValue(d[0]) by { assert Decimal(d[..0]) == 0; }
      FirstDigit(s, d[0]);
      DigitIsSmall(d[0]);
      ThroughByte(s, d[0], Lengthed(s, d, Decimal(d)));
    } else {
      LengthExact(s, w, [d[n]] + rest);
      assert w + ([d[n]] + rest) == d + rest;
      NoErrorBefore(s);
      DigitIsSmall(d[n]);
      if Decimal(w) <= MAX_LENGTH {
        NextDigit(s, w, Decimal(w), d[n]);
        if (NO_LENGTH - 10) / 10 < Decimal(w) {
          FailsAt(s, w, Lengthed(s, w, Decimal(w)), d[n], rest, ADo(Lengthed(s, w, Decimal(w)), d[n]).s);
          RejectedBy(s, d + rest);
        } else {
          ThenByte(s, w, Lengthed(s, w, Decimal(w)), d[n], Lengthed(s, d, Decimal(d)));
        }
      }
    }
  }

  lemma DigitIsSmall(c: char)
    requires IsNum(c)
    ensures DigitValue(c) <= 9
  {
  }

  lemma NoErrorBefore(s: Abs)
    requires BeforeLength(s)
    ensures s.r.errno == OK
  {
  }

  lemma RejectedBy(s: Abs, text: string)
    requires ARun(s, text, 0).stopped && ARun(s, text, 0).s.r.errno == InvalidContentLength
    ensures LengthRejected(s, text)
  {
  }

  /** The parser behind the digits of a chunk size. */
  function Sized(s: Abs, n: nat): Abs {
    Abs(s.r.(state := ChunkSize, clen := n), s.log)
  }

  lemma HexIsUnhex(c: char)
    requires IsHex(c)
    ensures Unhex(c) == HexDigit(c) <= 15 && c != CR
  {
  }

  lemma FirstHex(s: Abs, ch: char)
    requires s.r.state.ChunkSizeStart? && IsHex(ch)
    ensures ADo(s, ch) == ANext(Sized(s, HexDigit(ch)))
  {
    HexIsUnhex(ch);
    hide Unhex, IsHex;
  }

  lemma NextHexAct(r: Regs, ch: char)
    requires r.state.ChunkSize? && IsHex(ch)
    ensures Transition(r, ch, false) ==
            if (NO_LENGTH - 16) / 16 < r.clen then Fail(r, InvalidContentLength)
            else Go(r.(clen := 16 * r.clen + HexDigit(ch)), Keep, Quiet, Advance)
  {
    HexIsUnhex(ch);
    hide Unhex, IsHex;
    if (NO_LENGTH - 16) / 16 >= r.clen {
      ShiftedExact(r.clen, 16, Unhex(ch));
    }
  }

  lemma NextHex(s: Abs, n: nat, ch: char)
    requires IsHex(ch)
    ensures var x := ADo(Sized(s, n), ch);
            if (NO_LENGTH - 16) / 16 < n then x.AHalt? && !x.used && x.s.r.errno == InvalidContentLength
            else x == ANext(Sized(s, 16 * n + HexDigit(ch)))
  {
    NextHexAct(Sized(s, n).r, ch);
    hide Transition, IsHex;
  }

  /** A chunk size is read as the number it is, or rejected if it is larger than MAX_CHUNK. */
  lemma {:induction false} ChunkSizeExact(s: Abs, d: string, rest: string)
    requires s.r.state.ChunkSizeStart? && d != "" && AreHexDigits(d)
    ensures MAX_CHUNK == 18446744073709551599 < NO_LENGTH
    ensures if Hexadecimal(d) <= MAX_CHUNK then Through(s, d, Sized(s, Hexadecimal(d)))
            else LengthRejected(s, d + rest)
  {
    hide ADo, ARun, Through, Sized, LengthRejected, IsHex;
    var n := |d| - 1;
    var w := d[..n];
    assert d == w + [d[n]];
    HexIsUnhex(d[n]);
    if n == 0 {
      assert d == [d[0]] && Hexadecimal(d) == HexDigit(d[0]) by { assert Hexadecimal(d[..0]) == 0; }
      FirstHex(s, d[0]);
      ThroughByte(s, d[0], Sized(s, Hexadecimal(d)));
    } else {
      ChunkSizeExact(s, w, [d[n]] + rest);
      assert w + ([d[n]] + rest) == d + rest;
      if Hexadecimal(w) <= MAX_CHUNK {
        NextHex(s, Hexadecimal(w), d[n]);
        if (NO_LENGTH - 16) / 16 < Hexadecimal(w) {
          FailsAt(s, w, Sized(s, Hexadecimal(w)), d[n], rest, ADo(Sized(s, Hexadecimal(w)), d[n]).s);
          RejectedBy(s, d + rest);
        } else {
          ThenByte(s, w, Sized(s, Hexadecimal(w)), d[n], Sized(s, Hexadecimal(d)));
        }
      }
    }
  }
}
