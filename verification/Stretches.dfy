/** Stretches of a buffer. */
module Stretches {

  /** `s` stands at position `i` of the buffer. */
  predicate Here(buf: string, i: nat, s: string) {
    i + |s| <= |buf| && buf[i..i + |s|] == s
  }

  lemma HereBoth(buf: string, i: nat, a: string, b: string)
    requires Here(buf, i, a + b)
    ensures Here(buf, i, a) && Here(buf, i + |a|, b)
  {
    assert buf[i..i + |a|] == (a + b)[..|a|];
    assert buf[i + |a|..i + |a| + |b|] == (a + b)[|a|..];
  }

  lemma HereLast(buf: string, i: nat, s: string)
    requires Here(buf, i, s) && s != ""
    ensures Here(buf, i, s[..|s| - 1]) && buf[i + |s| - 1] == s[|s| - 1]
  {
    assert buf[i..i + |s|][|s| - 1] == s[|s| - 1];
    assert buf[i..i + |s| - 1] == s[..|s| - 1];
  }

  lemma HereAll(buf: string)
    ensures Here(buf, 0, buf)
  {
    assert buf[0..|buf|] == buf;
  }

  lemma HereJoin(buf: string, i: nat, a: string, b: string)
    requires Here(buf, i, a) && Here(buf, i + |a|, b)
    ensures Here(buf, i, a + b)
  {
    assert buf[i..i + |a|] + buf[i + |a|..i + |a| + |b|] == buf[i..i + |a| + |b|];
  }

  lemma HereMeans(buf: string, i: nat, s: string)
    requires Here(buf, i, s)
    ensures i + |s| <= |buf| && buf[i..i + |s|] == s
  {
  }
}
