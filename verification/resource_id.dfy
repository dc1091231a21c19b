/** Resource identifiers: a registered prefix, an underscore and a canonical, nonzero KSUID. */
module ResourceId {
  const PREFIXES := {"usr", "ws", "prj", "brd", "inv", "thr", "cmt", "ast", "upl", "bci",
                     "evt", "job", "idem", "pag", "note", "fld", "lsh", "ord", "rfnd"}

  predicate Alphanumeric(c: char) {
    '0' <= c <= '9' || 'A' <= c <= 'Z' || 'a' <= c <= 'z'
  }

  predicate AllAlphanumeric(s: string) {
    forall i :: 0 <= i < |s| ==> Alphanumeric(s[i])
  }

  // The value of a base-62 digit, in the order 0-9, A-Z, a-z.
  function Digit(c: char): nat
    requires Alphanumeric(c)
  {
    if c <= '9' then c as int - '0' as int
    else if c <= 'Z' then c as int - 'A' as int + 10
    else c as int - 'a' as int + 36
  }

  function Value(s: string): nat
    requires AllAlphanumeric(s)
  {
    if s == "" then 0 else Value(s[..|s| - 1]) * 62 + Digit(s[|s| - 1])
  }

  // 27 base-62 digits that denote a nonzero number of 20 bytes.
  predicate Ksuid(s: string) {
    |s| == 27 && AllAlphanumeric(s) && 0 < Value(s) < 0x1_0000000000_0000000000_0000000000_0000000000
  }

  predicate Valid(value: string, prefix: string) {
    && prefix in PREFIXES
    && |value| == |prefix| + 28
    && value[..|prefix| + 1] == prefix + "_"
    && Ksuid(value[|prefix| + 1..])
  }

  // ---------------------------------------------------------------- small identifiers

  function Zeros(n: nat): string {
    if n == 0 then "" else Zeros(n - 1) + "0"
  }

  // The identifier whose number is one digit.
  function Small(prefix: string, digit: char): string {
    prefix + "_" + Zeros(26) + [digit]
  }

  lemma {:induction false} ZerosAreNothing(n: nat)
    ensures |Zeros(n)| == n && AllAlphanumeric(Zeros(n)) && Value(Zeros(n)) == 0
  {
    if n > 0 {
      ZerosAreNothing(n - 1);
      assert Zeros(n)[..n - 1] == Zeros(n - 1);
    }
  }

  lemma SmallIsValid(prefix: string, digit: char)
    requires prefix in PREFIXES && Alphanumeric(digit) && digit != '0'
    ensures Valid(Small(prefix, digit), prefix) && |Small(prefix, digit)| == |prefix| + 28
  {
    hide Zeros;
    ZerosAreNothing(26);
    var value, number := Small(prefix, digit), Zeros(26) + [digit];
    assert value == (prefix + "_") + number && number[..26] == Zeros(26);
    assert value[..|prefix| + 1] == prefix + "_" && value[|prefix| + 1..] == number;
    assert Value(number) == Digit(digit);
  }
}
