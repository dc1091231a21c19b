/** Signed keyset cursors: a position, bound to the query it was made for. JSON and the message
    authentication code are parameters. A filter is bytes, as a request may bring any; the other texts
    of a scope are checked and plain. */
module Cursor {
  import opened Wrappers
  import opened Strings
  import opened Base64Url
  import opened Utf8
  import ResourceId

  const MAX_TOKEN := 4096
  const MAX_FILTER := 512
  const MIN_KEY := 32
  const MAC_BYTES := 32

  datatype Scope = Scope(actor: string, workspace: string, resource: string, filter: seq<Byte>, order: string)

  // An instant, and the identifier that breaks ties.
  datatype Position = Position(updatedAt: int, id: string)

  datatype Payload = Payload(version: int, scope: Scope, position: Position)

  datatype Codec = Codec(key: seq<Byte>,
                         marshal: Payload -> Option<seq<Byte>>, parse: seq<Byte> -> Option<Payload>,
                         mac: (seq<Byte>, seq<Byte>) -> seq<Byte>)

  // ---------------------------------------------------------------- what is checked

  const SECOND := 1_000_000_000

  // Instants are nanoseconds since 1970 in UTC. The first of January of year 1 stands for no instant.
  const ZERO_TIME := -62_135_596_800 * SECOND

  predicate ScopeValid(s: Scope) {
    && ResourceId.Valid(s.actor, "usr")
    && s.order in {"updated_at_desc_id_desc", "created_at_desc_id_desc", "id_asc"}
    && |s.filter| <= MAX_FILTER
    && (s.workspace != "" ==> ResourceId.Valid(s.workspace, "ws"))
    && s.resource in {"prj", "brd", "ws", "inv", "usr", "thr", "cmt"}
  }

  predicate PositionValid(p: Position, prefix: string) {
    p.updatedAt != ZERO_TIME && ResourceId.Valid(p.id, prefix)
  }

  // ---------------------------------------------------------------- JSON

  // The years 0 to 9999 can be written.
  predicate Writable(at: int) {
    -62_167_219_200 * SECOND <= at < 253_402_300_800 * SECOND
  }

  // Digits left of n when trailing zeros are dropped.
  function Significant(fraction: nat, n: nat): (digits: nat)
    ensures digits <= n
  {
    if n == 0 || fraction % 10 != 0 then n else Significant(fraction / 10, n - 1)
  }

  // Bytes of an instant in the format of section 5.6 of RFC 3339, with nanoseconds where there are any.
  function TimeLength(at: int): (n: nat)
    ensures n <= 30
  {
    var fraction := at % SECOND;
    if fraction == 0 then 20 else 21 + Significant(fraction, 9)
  }

  // Braces, names, colons, commas, quotes and the version take 117 bytes.
  function PayloadLength(s: Scope, position: Position): nat {
    117 + |s.actor| + |s.workspace| + |s.resource| + Quoted(s.filter) + |s.order| + TimeLength(position.updatedAt) + |position.id|
  }

  function MendedScope(s: Scope): Scope {
    s.(filter := Mended(s.filter))
  }

  // What is known of JSON and of the code. A payload is read as itself but for stray bytes of its
  // filter; what is checked can be written unless its year has more than four digits, and its length is
  // known.
  ghost predicate Sane(c: Codec) {
    && (forall p :: c.marshal(p).Some? ==> c.parse(c.marshal(p).value) == Some(p.(scope := MendedScope(p.scope))))
    && (forall s, at :: Checked(s, at) ==> (c.marshal(Payload(1, s, at)).Some? <==> Writable(at.updatedAt)))
    && (forall s, at :: Checked(s, at) && Writable(at.updatedAt) ==> |c.marshal(Payload(1, s, at)).value| == PayloadLength(s, at))
    && (forall raw :: |c.mac(c.key, raw)| == MAC_BYTES)
  }

  predicate Checked(s: Scope, position: Position) {
    ScopeValid(s) && PositionValid(position, s.resource)
  }

  // ---------------------------------------------------------------- tokens

  function EncodeToken(c: Codec, scope: Scope, position: Position): Option<string> {
    if |c.key| < MIN_KEY || !ScopeValid(scope) || !PositionValid(position, scope.resource) then None
    else match c.marshal(Payload(1, scope, position))
      case None => None
      case Some(raw) => Some(Encode(raw) + "." + Encode(c.mac(c.key, raw)))
  }

  // The first dot of a token, or its length.
  function Dot(s: string): (n: nat)
    ensures n <= |s|
    ensures n < |s| ==> s[n] == '.'
    ensures forall i :: 0 <= i < n ==> s[i] != '.'
  {
    if s == "" || s[0] == '.' then 0 else 1 + Dot(s[1..])
  }

  function DecodeToken(c: Codec, token: string, scope: Scope): Option<Position> {
    if |c.key| < MIN_KEY || !ScopeValid(scope) || Utf8Length(token) > MAX_TOKEN then None
    else
      var n := Dot(token);
      if n == |token| || Dot(token[n + 1..]) < |token| - n - 1 then None
      else
        var raw, signature := Decode(token[..n]), Decode(token[n + 1..]);
        if raw == None || signature == None || signature.value != c.mac(c.key, raw.value) then None
        else
          var value := c.parse(raw.value);
          if value == None || value.value.version != 1 || value.value.scope != scope || !PositionValid(value.value.position, scope.resource)
          then None
          else Some(value.value.position)
  }

  // ---------------------------------------------------------------- laws

  lemma {:induction false} PlainBytes(s: string)
    requires forall i :: 0 <= i < |s| ==> s[i] as int < 0x80
    ensures Utf8Length(s) == |s|
  {
    if s != "" { PlainBytes(s[1..]); }
  }

  lemma NoDot(s: string)
    requires InAlphabet(s)
    ensures forall i :: 0 <= i < |s| ==> s[i] != '.' && s[i] as int < 0x80
  {
    forall i | 0 <= i < |s| ensures s[i] != '.' && s[i] as int < 0x80 { assert Digit(s[i]).Some?; }
  }

  lemma Joined(a: string, b: string)
    ensures var token := a + "." + b;
      |token| == |a| + 1 + |b| && token[..|a|] == a && token[|a|] == '.' && token[|a| + 1..] == b
    ensures forall i :: 0 <= i < |a| ==> (a + "." + b)[i] == a[i]
  {
  }

  lemma {:induction false} DotAt(s: string, n: nat)
    requires n <= |s| && (n < |s| ==> s[n] == '.') && forall i :: 0 <= i < n ==> s[i] != '.'
    ensures Dot(s) == n
  {
    if n > 0 { DotAt(s[1..], n - 1); }
  }

  lemma {:induction false} PlainText(a: string, b: string)
    requires (forall i :: 0 <= i < |a| ==> a[i] as int < 0x80) && (forall i :: 0 <= i < |b| ==> b[i] as int < 0x80)
    ensures Utf8Length(a + "." + b) == |a| + 1 + |b|
  {
    if a == "" {
      assert ("" + "." + b)[1..] == b;
      PlainBytes(b);
    } else {
      assert (a + "." + b)[1..] == a[1..] + "." + b;
      PlainText(a[1..], b);
    }
  }

  // The parts of a token that was made here.
  lemma TokenParts(a: string, b: string)
    requires InAlphabet(a) && InAlphabet(b)
    ensures var token := a + "." + b;
      Dot(token) == |a| < |token| && token[..|a|] == a && token[|a| + 1..] == b && Dot(b) == |b| && Utf8Length(token) == |a| + 1 + |b|
  {
    hide Dot, Utf8Length, InAlphabet;
    NoDot(a);
    NoDot(b);
    Joined(a, b);
    DotAt(a + "." + b, |a|);
    DotAt(b, |b|);
    PlainText(a, b);
  }

  // The scopes that a token is read under.
  lemma WrittenRoundTrip(c: Codec, scope: Scope, position: Position, scope': Scope)
    requires Sane(c) && EncodeToken(c, scope, position).Some?
    ensures var raw := c.marshal(Payload(1, scope, position)).value;
      var read := DecodeToken(c, EncodeToken(c, scope, position).value, scope');
      read == if scope' == MendedScope(scope) && ScopeValid(scope') && |raw| <= 3039 then Some(position) else None
  {
    hide ResourceId.Valid, Encode, Decode, Dot, Utf8Length, InAlphabet, PayloadLength, Writable, Mended;
    var raw := c.marshal(Payload(1, scope, position)).value;
    var mac := c.mac(c.key, raw);
    EncodeShape(raw);
    EncodeShape(mac);
    DecodeEncode(raw);
    DecodeEncode(mac);
    TokenParts(Encode(raw), Encode(mac));
  }

  // A valid position of a valid scope gets a cursor exactly if its year can be written.
  lemma CursorIssued(c: Codec, scope: Scope, position: Position)
    requires Sane(c) && |c.key| >= MIN_KEY && Checked(scope, position)
    ensures EncodeToken(c, scope, position).Some? <==> Writable(position.updatedAt)
  {
    hide ScopeValid, PositionValid, PayloadLength, Writable, Mended;
  }

  // Exactly which scope an issued cursor is read under: its own with the stray bytes of the filter
  // replaced, if that is valid and the payload has at most 3039 bytes; otherwise none.
  lemma CursorReadUnder(c: Codec, scope: Scope, position: Position, scope': Scope)
    requires Sane(c) && EncodeToken(c, scope, position).Some?
    ensures DecodeToken(c, EncodeToken(c, scope, position).value, scope') ==
      if scope' == MendedScope(scope) && ScopeValid(scope') && PayloadLength(scope, position) <= 3039 then Some(position) else None
  {
    hide ScopeValid, PositionValid, PayloadLength, Writable, Mended, DecodeToken;
    WrittenRoundTrip(c, scope, position, scope');
  }

  // What the code promises, an issued cursor being read back, holds exactly if the payload has at most
  // 3039 bytes and the filter has no stray byte.
  lemma CursorRoundTrip(c: Codec, scope: Scope, position: Position)
    requires Sane(c) && EncodeToken(c, scope, position).Some?
    ensures DecodeToken(c, EncodeToken(c, scope, position).value, scope) ==
      if Clean(scope.filter) && PayloadLength(scope, position) <= 3039 then Some(position) else None
  {
    hide Sane, PositionValid, PayloadLength, Writable, Mended, DecodeToken, Clean;
    MendedIsSame(scope.filter);
    CursorReadUnder(c, scope, position, scope);
  }

  // ---------------------------------------------------------------- which filters fit

  lemma IdLength(value: string, prefix: string)
    requires ResourceId.Valid(value, prefix)
    ensures |value| == |prefix| + 28
  {
  }

  predicate Letters(s: string) {
    forall i :: 0 <= i < |s| ==> 'a' <= s[i] <= 'z'
  }

  lemma PlainId(value: string, prefix: string)
    requires ResourceId.Valid(value, prefix) && Letters(prefix)
    ensures Ascii(value) && Plain(Bytes(value)) && |value| == |prefix| + 28
  {
    hide ResourceId.Value;
    forall i | 0 <= i < |value| ensures ResourceId.Alphanumeric(value[i]) || value[i] == '_' {
      if i < |prefix| { assert value[i] == value[..|prefix| + 1][i] == prefix[i]; }
      else if i == |prefix| { assert value[i] == value[..|prefix| + 1][i] == '_'; }
      else { assert value[i] == value[|prefix| + 1..][i - |prefix| - 1]; }
    }
  }

  // Beside its filter a payload has at most 265 bytes.
  lemma RestOfPayload(scope: Scope, position: Position)
    requires Checked(scope, position)
    ensures PayloadLength(scope, position) ==
      117 + 31 + |scope.workspace| + 2 * |scope.resource| + 28 + Quoted(scope.filter) + |scope.order| + TimeLength(position.updatedAt)
    ensures PayloadLength(scope, position) <= 265 + Quoted(scope.filter)
  {
    hide Quoted, TimeLength, ResourceId.Valid;
    IdLength(scope.actor, "usr");
    if scope.workspace != "" { IdLength(scope.workspace, "ws"); }
    IdLength(position.id, scope.resource);
  }

  // So every cursor with a filter of at most 462 bytes is read back, if there is no stray byte.
  lemma ShortFiltersAreRead(c: Codec, scope: Scope, position: Position)
    requires Sane(c) && |scope.filter| <= 462 && EncodeToken(c, scope, position).Some?
    ensures DecodeToken(c, EncodeToken(c, scope, position).value, scope) == if Clean(scope.filter) then Some(position) else None
  {
    hide Sane, ScopeValid, PositionValid, DecodeToken, PayloadLength, Writable, Quoted, Clean;
    CursorRoundTrip(c, scope, position);
    RestOfPayload(scope, position);
    QuotedAtMostSixfold(scope.filter);
  }

  // ---------------------------------------------------------------- the listing of comments

  // Its filter holds the thread and the status asked for, which nobody checks.
  function CommentScope(actor: string, thread: string, status: seq<Byte>): Scope
    requires Ascii(thread)
  {
    Scope(actor, "", "cmt", Bytes(":" + thread + ":") + status, "id_asc")
  }

  lemma CommentFilter(thread: string, status: seq<Byte>)
    requires ResourceId.Valid(thread, "thr")
    ensures Ascii(thread) && |Bytes(":" + thread + ":") + status| == 33 + |status|
    ensures Quoted(Bytes(":" + thread + ":") + status) == 33 + Quoted(status)
    ensures Clean(Bytes(":" + thread + ":") + status) <==> Clean(status)
    ensures Mended(Bytes(":" + thread + ":") + status) == Bytes(":" + thread + ":") + Mended(status)
  {
    hide ResourceId.Valid, Quoted, Clean, Mended;
    PlainId(thread, "thr");
    assert forall i :: 0 <= i < |thread| ==> (":" + thread + ":")[i + 1] == thread[i];
    assert forall i :: 0 <= i < |thread| ==> Bytes(":" + thread + ":")[i + 1] == Bytes(thread)[i];
    PlainFirst(Bytes(":" + thread + ":"), status);
  }

  // Under which statuses a comment's cursor is read back: without stray bytes, and, as JSON writes them,
  // with at most 2818 bytes less those of the time.
  lemma CommentCursorExactly(c: Codec, actor: string, thread: string, status: seq<Byte>, position: Position)
    requires Sane(c) && |c.key| >= MIN_KEY && Writable(position.updatedAt) && PositionValid(position, "cmt")
    requires ResourceId.Valid(actor, "usr") && ResourceId.Valid(thread, "thr") && |status| <= MAX_FILTER - 33
    ensures Ascii(thread)
    ensures var scope := CommentScope(actor, thread, status);
      EncodeToken(c, scope, position).Some? &&
      DecodeToken(c, EncodeToken(c, scope, position).value, scope) ==
      if Clean(status) && Quoted(status) <= 2818 - TimeLength(position.updatedAt) then Some(position) else None
  {
    hide Sane, DecodeToken, EncodeToken, PayloadLength, PositionValid, Writable, ResourceId.Valid, Quoted, Clean, TimeLength, Bytes;
    CommentFilter(thread, status);
    CursorIssued(c, CommentScope(actor, thread, status), position);
    CursorRoundTrip(c, CommentScope(actor, thread, status), position);
    RestOfPayload(CommentScope(actor, thread, status), position);
  }

  const ACTOR := ResourceId.Small("usr", '1')
  const THREAD := ResourceId.Small("thr", '1')
  const COMMENT := ResourceId.Small("cmt", '1')

  lemma CommentParties()
    ensures ResourceId.Valid(ACTOR, "usr") && ResourceId.Valid(THREAD, "thr") && ResourceId.Valid(COMMENT, "cmt") && Ascii(THREAD)
  {
    hide ResourceId.Valid, ResourceId.Small;
    ResourceId.SmallIsValid("usr", '1');
    ResourceId.SmallIsValid("thr", '1');
    ResourceId.SmallIsValid("cmt", '1');
    PlainId(THREAD, "thr");
  }

  function Brackets(n: nat): seq<Byte> {
    if n == 0 then [] else [0x3C] + Brackets(n - 1)
  }

  lemma {:induction false} BracketsLength(n: nat)
    ensures |Brackets(n)| == n && Quoted(Brackets(n)) == 6 * n && Clean(Brackets(n))
  {
    if n > 0 {
      assert Brackets(n)[1..] == Brackets(n - 1);
      BracketsLength(n - 1);
    }
  }

  // The failure is real: with a status of 479 brackets the first page hands out a cursor that the
  // server refuses.
  lemma IssuedButRefused(c: Codec, at: int)
    requires Sane(c) && |c.key| >= MIN_KEY && Writable(at) && at != ZERO_TIME
    ensures Ascii(THREAD)
    ensures var scope, position := CommentScope(ACTOR, THREAD, Brackets(479)), Position(at, COMMENT);
      Clean(scope.filter) && EncodeToken(c, scope, position).Some? && DecodeToken(c, EncodeToken(c, scope, position).value, scope) == None
  {
    hide Sane, DecodeToken, EncodeToken, Writable, ResourceId.Valid, ResourceId.Small, Quoted, Clean, Bytes, TimeLength, Brackets;
    CommentParties();
    BracketsLength(479);
    CommentFilter(THREAD, Brackets(479));
    CommentCursorExactly(c, ACTOR, THREAD, Brackets(479), Position(at, COMMENT));
  }

  lemma StrayIsMended()
    ensures !Clean([0xFF]) && Quoted([0xFF]) == 6 && Mended([0xFF]) == REPLACEMENT
  {
    var b: seq<Byte> := [0xFF];
    assert b[1..] == [] && Rune(b) == 0;
  }

  // So it is with a status of one byte, 0xFF; that cursor is read by whoever asks for the status U+FFFD.
  lemma StrayByteIsRefused(c: Codec, at: int)
    requires Sane(c) && |c.key| >= MIN_KEY && Writable(at) && at != ZERO_TIME
    ensures Ascii(THREAD)
    ensures var scope, position := CommentScope(ACTOR, THREAD, [0xFF]), Position(at, COMMENT);
      EncodeToken(c, scope, position).Some? && DecodeToken(c, EncodeToken(c, scope, position).value, scope) == None &&
      DecodeToken(c, EncodeToken(c, scope, position).value, CommentScope(ACTOR, THREAD, REPLACEMENT)) == Some(position)
  {
    hide Sane, DecodeToken, EncodeToken, PayloadLength, Writable, ResourceId.Valid, ResourceId.Small, TimeLength, Bytes, Plain, Quoted, Clean, Mended;
    CommentParties();
    var scope, position := CommentScope(ACTOR, THREAD, [0xFF]), Position(at, COMMENT);
    CommentCursorExactly(c, ACTOR, THREAD, [0xFF], position);
    CommentFilter(THREAD, [0xFF]);
    StrayIsMended();
    CursorReadUnder(c, scope, position, CommentScope(ACTOR, THREAD, REPLACEMENT));
    RestOfPayload(scope, position);
  }

  // ---------------------------------------------------------------- what is read

  // A token is good for one scope only.
  lemma CursorBoundToScope(c: Codec, token: string, scope: Scope, scope': Scope)
    requires DecodeToken(c, token, scope).Some? && DecodeToken(c, token, scope').Some?
    ensures scope == scope'
  {
    hide ScopeValid, PositionValid, Decode, Dot, Utf8Length;
  }

  // The token carries the code of a payload, made with the key.
  predicate Signs(c: Codec, token: string, raw: seq<Byte>) {
    Dot(token) < |token| && Decode(token[Dot(token) + 1..]) == Some(c.mac(c.key, raw))
  }

  // Whatever is read was signed: some payload with this scope and position has a code made with the key.
  lemma OnlySignedIsRead(c: Codec, token: string, scope: Scope)
    requires DecodeToken(c, token, scope).Some?
    ensures exists raw :: Signs(c, token, raw) && c.parse(raw) == Some(Payload(1, scope, DecodeToken(c, token, scope).value))
  {
    hide ScopeValid, PositionValid, Utf8Length;
    var raw := Decode(token[..Dot(token)]).value;
    assert Signs(c, token, raw) && c.parse(raw) == Some(Payload(1, scope, DecodeToken(c, token, scope).value));
  }

  // The token is two parts with a dot between: a payload of this scope and position, and its code.
  predicate Parts(c: Codec, token: string, scope: Scope, position: Position, left: string, right: string) {
    && token == left + "." + right && '.' !in left && '.' !in right
    && Decode(left).Some? && Decode(right) == Some(c.mac(c.key, Decode(left).value))
    && c.parse(Decode(left).value) == Some(Payload(1, scope, position))
  }

  // Exactly which tokens are read, and as what: with a key of 32 bytes or more, tokens of at most 4096
  // bytes of such parts, for a valid scope and position.
  lemma ReadExactly(c: Codec, token: string, scope: Scope, position: Position)
    ensures DecodeToken(c, token, scope) == Some(position) <==>
      && |c.key| >= 32 && ScopeValid(scope) && PositionValid(position, scope.resource) && Utf8Length(token) <= 4096
      && exists left, right :: Parts(c, token, scope, position, left, right)
  {
    hide ScopeValid, PositionValid, Utf8Length, Decode;
    if left, right :| Parts(c, token, scope, position, left, right) {
      DotBetween(token, left, right);
    }
    if DecodeToken(c, token, scope) == Some(position) {
      var n := Dot(token);
      AllPart(token[n + 1..]);
      assert token == token[..n] + "." + token[n + 1..];
      assert Parts(c, token, scope, position, token[..n], token[n + 1..]);
    }
  }

  lemma AllPart(s: string)
    ensures Dot(s) == |s| <==> '.' !in s
  {
  }

  lemma DotBetween(token: string, left: string, right: string)
    requires token == left + "." + right && '.' !in left && '.' !in right
    ensures Dot(token) == |left| && token[..|left|] == left && token[|left| + 1..] == right && Dot(right) == |right|
  {
    AllPart(right);
    assert token[|left|] == '.';
    assert forall i :: 0 <= i < |left| ==> token[i] == left[i];
  }
}
