/** Unpadded base64 with the URL-safe alphabet, section 5 of RFC 4648. The decoder skips line breaks
    and does not look at the unused bits of a last, partial group. */
module Base64Url {
  import opened Wrappers

  type Byte = x: int | 0 <= x < 256

  function Symbol(n: int): (c: char)
    requires 0 <= n < 64
    ensures Digit(c) == Some(n)
  {
    if n < 26 then 'A' + n as char
    else if n < 52 then 'a' + (n - 26) as char
    else if n < 62 then '0' + (n - 52) as char
    else if n == 62 then '-' else '_'
  }

  function Digit(c: char): (n: Option<int>)
    ensures n.Some? ==> 0 <= n.value < 64
  {
    if 'A' <= c <= 'Z' then Some(c as int - 'A' as int)
    else if 'a' <= c <= 'z' then Some(c as int - 'a' as int + 26)
    else if '0' <= c <= '9' then Some(c as int - '0' as int + 52)
    else if c == '-' then Some(62)
    else if c == '_' then Some(63)
    else None
  }

  function Encode(b: seq<Byte>): string {
    if b == [] then ""
    else if |b| == 1 then [Symbol(b[0] / 4), Symbol(b[0] % 4 * 16)]
    else if |b| == 2 then [Symbol(b[0] / 4), Symbol(b[0] % 4 * 16 + b[1] / 16), Symbol(b[1] % 16 * 4)]
    else
      [Symbol(b[0] / 4), Symbol(b[0] % 4 * 16 + b[1] / 16), Symbol(b[1] % 16 * 4 + b[2] / 64), Symbol(b[2] % 64)] + Encode(b[3..])
  }

  function Unbroken(s: string): string {
    if s == "" then "" else (if s[0] == '\n' || s[0] == '\r' then "" else [s[0]]) + Unbroken(s[1..])
  }

  function Groups(s: string): Option<seq<Byte>> {
    if s == "" then Some([])
    else if |s| == 1 || Digit(s[0]) == None || Digit(s[1]) == None then None
    else
      var a, b := Digit(s[0]).value, Digit(s[1]).value;
      if |s| == 2 then Some([a * 4 + b / 16])
      else if Digit(s[2]) == None then None
      else
        var c := Digit(s[2]).value;
        if |s| == 3 then Some([a * 4 + b / 16, b % 16 * 16 + c / 4])
        else if Digit(s[3]) == None then None
        else
          var rest := Groups(s[4..]);
          if rest == None then None
          else Some([a * 4 + b / 16, b % 16 * 16 + c / 4, c % 4 * 64 + Digit(s[3]).value] + rest.value)
  }

  function Decode(s: string): Option<seq<Byte>> {
    Groups(Unbroken(s))
  }

  predicate InAlphabet(s: string) {
    forall i :: 0 <= i < |s| ==> Digit(s[i]).Some?
  }

  // How long a text of n bytes is.
  function EncodedLength(n: nat): nat {
    n / 3 * 4 + (if n % 3 == 0 then 0 else n % 3 + 1)
  }

  lemma {:induction false} EncodeShape(b: seq<Byte>)
    ensures |Encode(b)| == EncodedLength(|b|) && InAlphabet(Encode(b))
  {
    if |b| >= 3 { EncodeShape(b[3..]); }
  }

  lemma {:induction false} AlphabetIsUnbroken(s: string)
    requires InAlphabet(s)
    ensures Unbroken(s) == s
  {
    if s != "" {
      assert Digit(s[0]).Some?;
      AlphabetIsUnbroken(s[1..]);
    }
  }

  lemma {:induction false} GroupsEncode(b: seq<Byte>)
    ensures Groups(Encode(b)) == Some(b)
    decreases |b|
  {
    if |b| >= 3 {
      GroupsEncode(b[3..]);
      FirstGroup(b, Encode(b[3..]));
    } else if |b| == 2 {
      assert b == [b[0], b[1]];
      assert Encode(b) == [Symbol(b[0] / 4), Symbol(b[0] % 4 * 16 + b[1] / 16), Symbol(b[1] % 16 * 4)];
    } else if |b| == 1 {
      assert b == [b[0]];
      assert Encode(b) == [Symbol(b[0] / 4), Symbol(b[0] % 4 * 16)];
    }
  }

  lemma FirstGroup(b: seq<Byte>, rest: string)
    requires |b| >= 3 && Groups(rest) == Some(b[3..])
    ensures Groups([Symbol(b[0] / 4), Symbol(b[0] % 4 * 16 + b[1] / 16), Symbol(b[1] % 16 * 4 + b[2] / 64), Symbol(b[2] % 64)] + rest) == Some(b)
  {
    hide Symbol, Digit;
    var four := [Symbol(b[0] / 4), Symbol(b[0] % 4 * 16 + b[1] / 16), Symbol(b[1] % 16 * 4 + b[2] / 64), Symbol(b[2] % 64)];
    assert (four + rest)[4..] == rest;
    assert b == [b[0], b[1], b[2]] + b[3..];
  }

  // What is encoded is decoded again.
  lemma DecodeEncode(b: seq<Byte>)
    ensures Decode(Encode(b)) == Some(b)
  {
    EncodeShape(b);
    AlphabetIsUnbroken(Encode(b));
    GroupsEncode(b);
  }

  lemma SymbolOf(c: char)
    requires Digit(c).Some?
    ensures Symbol(Digit(c).value) == c
  {
  }

  lemma Fits(a: int, b: int, c: int, d: int)
    requires 0 <= a < 64 && 0 <= b < 64 && 0 <= c < 64 && 0 <= d < 64
    ensures var (x, y, z) := (a * 4 + b / 16, b % 16 * 16 + c / 4, c % 4 * 64 + d);
      x / 4 == a && x % 4 * 16 + y / 16 == b && y % 16 * 4 + z / 64 == c && z % 64 == d
  {
  }

  // The same text, but perhaps for the last character of a partial group.
  predicate Same(s: string, t: string) {
    && |s| == |t| && (|s| % 4 == 0 ==> s == t) && (s != "" ==> s[..|s| - 1] == t[..|s| - 1])
  }

  lemma {:induction false} GroupsExactly(s: string)
    ensures Groups(s).Some? <==> InAlphabet(s) && |s| % 4 != 1
    ensures Groups(s).Some? ==> Same(Encode(Groups(s).value), s)
    decreases |s|
  {
    hide Symbol, Digit;
    if |s| >= 4 {
      GroupsExactly(s[4..]);
      AlphabetSplits(s);
      if Groups(s).Some? { WholeGroup(s); }
    } else {
      PartialGroup(s);
    }
  }

  lemma AlphabetSplits(s: string)
    requires |s| >= 4
    ensures InAlphabet(s) <==> Digit(s[0]).Some? && Digit(s[1]).Some? && Digit(s[2]).Some? && Digit(s[3]).Some? && InAlphabet(s[4..])
  {
    hide Digit;
    if InAlphabet(s[4..]) { assert forall i :: 4 <= i < |s| ==> s[i] == s[4..][i - 4]; }
  }

  // Three bytes from the digits of four characters.
  function Three(s: string): seq<Byte>
    requires |s| == 4 && Digit(s[0]).Some? && Digit(s[1]).Some? && Digit(s[2]).Some? && Digit(s[3]).Some?
  {
    var a, b, c, d := Digit(s[0]).value, Digit(s[1]).value, Digit(s[2]).value, Digit(s[3]).value;
    [a * 4 + b / 16, b % 16 * 16 + c / 4, c % 4 * 64 + d]
  }

  lemma ThreeEncoded(s: string, rest: seq<Byte>)
    requires |s| == 4 && Digit(s[0]).Some? && Digit(s[1]).Some? && Digit(s[2]).Some? && Digit(s[3]).Some?
    ensures Encode(Three(s) + rest) == s + Encode(rest)
  {
    hide Symbol, Digit;
    var b := Three(s) + rest;
    assert b[3..] == rest;
    Fits(Digit(s[0]).value, Digit(s[1]).value, Digit(s[2]).value, Digit(s[3]).value);
    SymbolOf(s[0]);
    SymbolOf(s[1]);
    SymbolOf(s[2]);
    SymbolOf(s[3]);
    var four := [Symbol(b[0] / 4), Symbol(b[0] % 4 * 16 + b[1] / 16), Symbol(b[1] % 16 * 4 + b[2] / 64), Symbol(b[2] % 64)];
    assert four == s;
  }

  lemma GroupOf(s: string)
    requires |s| >= 4 && Groups(s).Some?
    ensures Digit(s[0]).Some? && Digit(s[1]).Some? && Digit(s[2]).Some? && Digit(s[3]).Some? && Groups(s[4..]).Some?
    ensures Groups(s).value == Three(s[..4]) + Groups(s[4..]).value
  {
    hide Digit;
    assert s[..4] == [s[0], s[1], s[2], s[3]];
  }

  lemma WholeGroup(s: string)
    requires |s| >= 4 && Groups(s).Some? && Groups(s[4..]).Some? && Same(Encode(Groups(s[4..]).value), s[4..])
    ensures Same(Encode(Groups(s).value), s)
  {
    hide Digit, Encode, Groups, Three;
    GroupOf(s);
    var rest := Encode(Groups(s[4..]).value);
    ThreeEncoded(s[..4], Groups(s[4..]).value);
    assert s == s[..4] + s[4..];
    if s[4..] != "" {
      assert s[..|s| - 1] == s[..4] + s[4..][..|s[4..]| - 1];
      assert (s[..4] + rest)[..|s| - 1] == s[..4] + rest[..|s[4..]| - 1];
    } else {
      assert rest == "";
    }
  }

  lemma PartialGroup(s: string)
    requires |s| < 4
    ensures Groups(s).Some? <==> InAlphabet(s) && |s| % 4 != 1
    ensures Groups(s).Some? ==> Same(Encode(Groups(s).value), s)
  {
    hide Symbol, Digit, Encode, Same;
    if s == "" { NothingEncoded(); }
    if |s| == 2 && Groups(s).Some? { TwoCharacters(s); }
    if |s| == 3 && Groups(s).Some? { ThreeCharacters(s); }
  }

  lemma NothingEncoded()
    ensures Same(Encode([]), "")
  {
  }

  lemma TwoCharacters(s: string)
    requires |s| == 2 && Digit(s[0]).Some? && Digit(s[1]).Some?
    ensures Same(Encode([Digit(s[0]).value * 4 + Digit(s[1]).value / 16]), s)
  {
    hide Symbol, Digit;
    Fits(Digit(s[0]).value, Digit(s[1]).value, 0, 0);
    SymbolOf(s[0]);
    assert s[..1] == [s[0]];
  }

  lemma ThreeCharacters(s: string)
    requires |s| == 3 && Digit(s[0]).Some? && Digit(s[1]).Some? && Digit(s[2]).Some?
    ensures Same(Encode([Digit(s[0]).value * 4 + Digit(s[1]).value / 16, Digit(s[1]).value % 16 * 16 + Digit(s[2]).value / 4]), s)
  {
    hide Symbol, Digit;
    Fits(Digit(s[0]).value, Digit(s[1]).value, Digit(s[2]).value, 0);
    SymbolOf(s[0]);
    SymbolOf(s[1]);
    assert s[..2] == [s[0], s[1]];
  }

  // A text is decoded exactly if, without line breaks, it is in the alphabet and leaves no single
  // character over; what it is decoded to is encoded as that text again, but perhaps for the last
  // character of a partial group.
  lemma DecodedExactly(s: string)
    ensures Decode(s).Some? <==> InAlphabet(Unbroken(s)) && |Unbroken(s)| % 4 != 1
    ensures Decode(s).Some? ==> Same(Encode(Decode(s).value), Unbroken(s))
  {
    hide InAlphabet, Same, Groups;
    GroupsExactly(Unbroken(s));
  }
}
