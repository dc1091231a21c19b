/** Texts as sequences of code points. */
module Strings {
  predicate HasPrefix(s: string, prefix: string) {
    |prefix| <= |s| && s[..|prefix|] == prefix
  }

  // Bytes of a code point in UTF-8.
  function Width(c: char): nat {
    var n := c as int;
    if n < 0x80 then 1 else if n < 0x800 then 2 else if n < 0x1_0000 then 3 else 4
  }

  // Bytes of a text in UTF-8.
  function Utf8Length(s: string): nat {
    if s == "" then 0 else Width(s[0]) + Utf8Length(s[1..])
  }
}
