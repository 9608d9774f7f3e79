/** Well-formed UTF-8, as RFC 3629 section 4 defines it: the test a byte buffer passes
    before it may be read as a string. */
module Utf8 {
  import opened Common

  predicate Continuation(b: Byte) { 0x80 <= b <= 0xBF }

  /** The length of the well-formed character `s` starts with, or 0 when `s` does not start
      with one (an empty buffer, a stray continuation byte, an overlong form, a surrogate,
      a code point above U+10FFFF or a truncated sequence). */
  function LeadLength(s: seq<Byte>): (n: nat)
    ensures n <= |s| && n <= 4
    ensures s != [] && s[0] < 0x80 ==> n == 1
    ensures n > 1 ==> 0xC2 <= s[0] <= 0xF4
  {
    if |s| == 0 then 0
    else if s[0] <= 0x7F then 1
    else if 0xC2 <= s[0] <= 0xDF then
      if |s| >= 2 && Continuation(s[1]) then 2 else 0
    else if s[0] == 0xE0 then
      if |s| >= 3 && 0xA0 <= s[1] <= 0xBF && Continuation(s[2]) then 3 else 0
    else if 0xE1 <= s[0] <= 0xEC || 0xEE <= s[0] <= 0xEF then
      if |s| >= 3 && Continuation(s[1]) && Continuation(s[2]) then 3 else 0
    else if s[0] == 0xED then
      if |s| >= 3 && 0x80 <= s[1] <= 0x9F && Continuation(s[2]) then 3 else 0
    else if s[0] == 0xF0 then
      if |s| >= 4 && 0x90 <= s[1] <= 0xBF && Continuation(s[2]) && Continuation(s[3]) then 4 else 0
    else if 0xF1 <= s[0] <= 0xF3 then
      if |s| >= 4 && Continuation(s[1]) && Continuation(s[2]) && Continuation(s[3]) then 4 else 0
    else if s[0] == 0xF4 then
      if |s| >= 4 && 0x80 <= s[1] <= 0x8F && Continuation(s[2]) && Continuation(s[3]) then 4 else 0
    else 0
  }

  /** `s` is a sequence of well-formed characters. */
  predicate ValidUtf8(s: seq<Byte>)
    decreases |s|
  {
    s == [] || (LeadLength(s) > 0 && ValidUtf8(s[LeadLength(s)..]))
  }

  /** A lone continuation byte, an overlong encoding of `/` and an encoded surrogate are
      each rejected. */
  lemma Rejections()
    ensures !ValidUtf8([0x80])
    ensures !ValidUtf8([0xC0, 0xAF])
    ensures !ValidUtf8([0xED, 0xA0, 0x80])
    ensures ValidUtf8([0xC3, 0xA9])
  {
    assert LeadLength([0xC3, 0xA9]) == 2;
    assert [0xC3, 0xA9][2..] == [];
  }
}
