/** Bytes that should be UTF-8 but need not be, as a request brings them, and what becomes of them in a
    JSON string by the rules of Go's encoder. */
module Utf8 {
  import Base64Url

  type Byte = Base64Url.Byte

  predicate In(b: seq<Byte>, i: nat, low: int, high: int) {
    i < |b| && low <= b[i] <= high
  }

  // How many bytes the code point has that b starts with, by section 4 of RFC 3629; 0 if b starts with
  // a stray byte.
  function Rune(b: seq<Byte>): (n: nat)
    requires b != []
    ensures n <= |b|
  {
    var c := b[0];
    if c < 0x80 then 1
    else if 0xC2 <= c <= 0xDF && In(b, 1, 0x80, 0xBF) then 2
    else if 0xE0 <= c <= 0xEF && In(b, 1, if c == 0xE0 then 0xA0 else 0x80, if c == 0xED then 0x9F else 0xBF) && In(b, 2, 0x80, 0xBF) then 3
    else if 0xF0 <= c <= 0xF4 && In(b, 1, if c == 0xF0 then 0x90 else 0x80, if c == 0xF4 then 0x8F else 0xBF) &&
            In(b, 2, 0x80, 0xBF) && In(b, 3, 0x80, 0xBF) then 4
    else 0
  }

  // No stray byte.
  predicate Clean(b: seq<Byte>)
    decreases |b|
  {
    b == [] || (Rune(b) > 0 && Clean(b[Rune(b)..]))
  }

  const REPLACEMENT: seq<Byte> := [0xEF, 0xBF, 0xBD]

  // Every stray byte becomes U+FFFD.
  function Mended(b: seq<Byte>): seq<Byte>
    decreases |b|
  {
    if b == [] then []
    else if Rune(b) == 0 then REPLACEMENT + Mended(b[1..])
    else b[..Rune(b)] + Mended(b[Rune(b)..])
  }

  // Bytes of a code point in a JSON string: HTML and two line separators are escaped as well.
  function RuneQuoted(r: seq<Byte>): nat
    requires r != []
  {
    if r[0] in {0x08, 0x09, 0x0A, 0x0C, 0x0D, 0x22, 0x5C} then 2
    else if r[0] < 0x20 || r[0] in {0x26, 0x3C, 0x3E} || r == [0xE2, 0x80, 0xA8] || r == [0xE2, 0x80, 0xA9] then 6
    else |r|
  }

  // Bytes between the quotes of a JSON string. A stray byte is written as the escape of U+FFFD.
  function Quoted(b: seq<Byte>): nat
    decreases |b|
  {
    if b == [] then 0
    else if Rune(b) == 0 then 6 + Quoted(b[1..])
    else RuneQuoted(b[..Rune(b)]) + Quoted(b[Rune(b)..])
  }

  // ---------------------------------------------------------------- laws

  lemma StrayIsReplaced(b: seq<Byte>)
    requires b != [] && Rune(b) == 0
    ensures Mended(b) != b
  {
    assert Mended(b)[0] == 0xEF && Mended(b)[1] == 0xBF && Mended(b)[2] == 0xBD;
  }

  // Writing and reading changes nothing exactly if there is no stray byte.
  lemma {:induction false} MendedIsSame(b: seq<Byte>)
    ensures Mended(b) == b <==> Clean(b)
    decreases |b|
  {
    if b != [] {
      var n := Rune(b);
      if n == 0 {
        StrayIsReplaced(b);
      } else {
        MendedIsSame(b[n..]);
        assert b == b[..n] + b[n..];
        if Mended(b) == b { assert Mended(b)[n..] == Mended(b[n..]); }
      }
    }
  }

  // At worst every byte becomes six.
  lemma {:induction false} QuotedAtMostSixfold(b: seq<Byte>)
    ensures Quoted(b) <= 6 * |b|
    decreases |b|
  {
    if b != [] { QuotedAtMostSixfold(b[if Rune(b) == 0 then 1 else Rune(b)..]); }
  }

  // ---------------------------------------------------------------- plain text

  predicate Ascii(s: string) {
    forall i :: 0 <= i < |s| ==> s[i] < '\U{0080}'
  }

  function Bytes(s: string): (b: seq<Byte>)
    requires Ascii(s)
    ensures |b| == |s| && forall i :: 0 <= i < |s| ==> b[i] == s[i] as int
  {
    seq(|s|, i requires 0 <= i < |s| => s[i] as int)
  }

  // Characters that are written as they are.
  predicate Plain(b: seq<Byte>) {
    forall i :: 0 <= i < |b| ==> 0x20 <= b[i] < 0x80 && b[i] !in {0x22, 0x26, 0x3C, 0x3E, 0x5C}
  }

  lemma {:induction false} PlainFirst(a: seq<Byte>, b: seq<Byte>)
    requires Plain(a)
    ensures Quoted(a + b) == |a| + Quoted(b) && (Clean(a + b) <==> Clean(b)) && Mended(a + b) == a + Mended(b)
    decreases |a|
  {
    if a == [] {
      assert a + b == b;
    } else {
      assert (a + b)[1..] == a[1..] + b && (a + b)[..1] == [a[0]];
      PlainFirst(a[1..], b);
      assert [a[0]] + (a[1..] + Mended(b)) == a + Mended(b);
    }
  }

  lemma PlainIsClean(a: seq<Byte>)
    requires Plain(a)
    ensures Clean(a) && Quoted(a) == |a|
  {
    PlainFirst(a, []);
    assert a + [] == a;
  }
}
