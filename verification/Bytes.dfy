/** Character classes of the HTTP parser, strict build.
    A byte is a `char`; every class below is stated by value ranges, so the
    bytes 128..255 fall on the side the tables of the parser put them. */
module Bytes {

  const CR: char := '\r'
  const LF: char := '\n'
  const HTAB: char := '\t'

  /** `LOWER(c)`: the byte with bit 5 set, for every byte and not only for letters. */
  function Lower(c: char): char {
    if c as int < 32 || 64 <= c as int < 96 || 128 <= c as int < 160 || 192 <= c as int < 224
    then (c as int + 32) as char
    else c
  }

  predicate IsAlpha(c: char) {
    'a' <= c <= 'z' || 'A' <= c <= 'Z'
  }

  predicate IsNum(c: char) {
    '0' <= c <= '9'
  }

  predicate IsAlphanum(c: char) {
    IsAlpha(c) || IsNum(c)
  }

  predicate IsHex(c: char) {
    IsNum(c) || 'a' <= c <= 'f' || 'A' <= c <= 'F'
  }

  predicate IsMark(c: char) {
    c == '-' || c == '_' || c == '.' || c == '!' || c == '~' || c == '*' || c == '\'' || c == '(' || c == ')'
  }

  predicate IsUserinfoChar(c: char) {
    IsAlphanum(c) || IsMark(c) || c == '%' || c == ';' || c == ':' || c == '&' || c == '='
    || c == '+' || c == '$' || c == ','
  }

  predicate IsUrlChar(c: char) {
    '!' <= c <= '~' && c != '#' && c != '?'
  }

  predicate IsHostChar(c: char) {
    IsAlphanum(c) || c == '.' || c == '-'
  }

  /** Non-zero entries of the `tokens` table. */
  predicate IsToken(c: char) {
    IsAlphanum(c) || c == '!' || ('#' <= c <= '\'') || c == '*' || c == '+' || c == '-' || c == '.'
    || ('^' <= c <= '`') || c == '|' || c == '~'
  }

  /** Value of a non-zero entry of the `tokens` table. */
  function TokenLower(c: char): char {
    if 'A' <= c <= 'Z' then (c as int + 32) as char else c
  }

  predicate IsHeaderChar(c: char) {
    c == CR || c == LF || c == HTAB || (c as int > 31 && c as int != 127)
  }

  /** `unhex`: only the first 128 entries are written, so the others are 0. */
  function Unhex(c: char): int {
    if IsNum(c) then c as int - '0' as int
    else if 'a' <= c <= 'f' then c as int - 'a' as int + 10
    else if 'A' <= c <= 'F' then c as int - 'A' as int + 10
    else if c as int >= 128 then 0
    else -1
  }

  function DigitValue(c: char): nat
    requires IsNum(c)
  {
    c as int - '0' as int
  }
}
