/** Renaming the page references of a Markdown note. A note is taken apart into literal characters and
    structural references, and the references are renamed; text is a sequence of code points. */
module NoteRemap {
  import opened Strings
  import opened ResourceId

  type Renaming = string -> string

  // ---------------------------------------------------------------- characters and references

  predicate Word(c: char) {
    Alphanumeric(c) || c == '_'
  }

  // White space in the sense of Unicode.
  predicate Space(c: char) {
    var n := c as int;
    9 <= n <= 13 || n == 0x20 || n == 0x85 || n == 0xA0 || n == 0x1680 || 0x2000 <= n <= 0x200A ||
    n == 0x2028 || n == 0x2029 || n == 0x202F || n == 0x205F || n == 0x3000
  }

  // A page reference stands at k: the prefix and 27 letters or digits.
  predicate RefAt(s: string, k: int) {
    && 0 <= k && k + 31 <= |s|
    && s[k] == 'p' && s[k + 1] == 'a' && s[k + 2] == 'g' && s[k + 3] == '_'
    && forall i :: k + 4 <= i < k + 31 ==> Alphanumeric(s[i])
  }

  predicate IsRef(s: string) {
    |s| == 31 && RefAt(s, 0)
  }

  // A renaming of references to references.
  ghost predicate KeepsShape(f: Renaming) {
    forall id :: IsRef(id) ==> IsRef(f(id))
  }

  // ---------------------------------------------------------------- pieces

  datatype Piece = Lit(c: char) | Ref(id: string)

  function Lits(s: string): (ps: seq<Piece>) {
    seq(|s|, i requires 0 <= i < |s| => Lit(s[i]))
  }

  function Text(p: Piece, f: Renaming): string {
    match p
    case Lit(c) => [c]
    case Ref(id) => f(id)
  }

  function Render(ps: seq<Piece>, f: Renaming): string {
    if ps == [] then "" else Text(ps[0], f) + Render(ps[1..], f)
  }

  predicate Sound(ps: seq<Piece>) {
    forall i :: 0 <= i < |ps| && ps[i].Ref? ==> IsRef(ps[i].id)
  }

  lemma SoundAppend(ps: seq<Piece>, qs: seq<Piece>)
    requires Sound(ps) && Sound(qs)
    ensures Sound(ps + qs)
  {
  }

  lemma LitsSound(s: string)
    ensures Sound(Lits(s))
  {
  }

  function Renamed(p: Piece, f: Renaming): Piece {
    match p
    case Lit(c) => p
    case Ref(id) => Ref(f(id))
  }

  function RenamedAll(ps: seq<Piece>, f: Renaming): seq<Piece> {
    if ps == [] then [] else [Renamed(ps[0], f)] + RenamedAll(ps[1..], f)
  }

  function Same(): Renaming {
    id => id
  }

  function Then(f: Renaming, g: Renaming): Renaming {
    id => g(f(id))
  }

  // ---------------------------------------------------------------- scanners

  // The first c in s, or its length.
  function Find(s: string, c: char): (n: nat)
    ensures n <= |s|
    ensures n < |s| ==> s[n] == c
    ensures forall i :: 0 <= i < n ==> s[i] != c
  {
    if s == "" || s[0] == c then 0 else 1 + Find(s[1..], c)
  }

  // References anywhere in a line, leftmost first and without overlap.
  function RefPieces(s: string): seq<Piece> {
    if s == "" then []
    else if RefAt(s, 0) then [Ref(s[..31])] + RefPieces(s[31..])
    else [Lit(s[0])] + RefPieces(s[1..])
  }

  // `before` is whether a word character precedes s.
  predicate AttributeAt(before: bool, s: string) {
    && !before && |s| >= 38
    && s[0] == 'p' && s[1] == 'a' && s[2] == 'g' && s[3] == 'e' && s[4] == '=' && s[5] == '"'
    && RefAt(s, 6) && s[37] == '"'
  }

  // The page attributes of a Shape tag.
  function TagPieces(before: bool, s: string): seq<Piece>
    decreases |s|
  {
    if s == "" then []
    else if AttributeAt(before, s) then Lits(s[..6]) + [Ref(s[6..37])] + Lits(s[37..38]) + TagPieces(false, s[38..])
    else [Lit(s[0])] + TagPieces(Word(s[0]), s[1..])
  }

  predicate TagAt(s: string) {
    && |s| > 6
    && s[0] == '<' && s[1] == 'S' && s[2] == 'h' && s[3] == 'a' && s[4] == 'p' && s[5] == 'e'
    && !Word(s[6]) && Find(s, '>') < |s|
  }

  // Running text: Shape tags, each up to the first closing bracket.
  function TextPieces(s: string): seq<Piece> {
    if s == "" then []
    else if TagAt(s) then
      var n := Find(s, '>') + 1;
      TagPieces(false, s[..n]) + TextPieces(s[n..])
    else [Lit(s[0])] + TextPieces(s[1..])
  }

  // The first code span of a text, if there is one: the index of its opening and closing backtick.
  function SpanOf(s: string): (span: (nat, nat))
    ensures span.0 <= |s| && span.1 <= |s|
    ensures span.1 < |s| ==> span.0 < span.1 && s[span.0] == '`' && s[span.1] == '`'
  {
    var a := Find(s, '`');
    if a == |s| then (a, a) else (a, a + 1 + Find(s[a + 1..], '`'))
  }

  // Prose: text around inline code.
  function ProsePieces(s: string): seq<Piece>
    decreases |s|
  {
    var (a, b) := SpanOf(s);
    if b == |s| then TextPieces(s)
    else TextPieces(s[..a]) + Lits(s[a..b + 1]) + ProsePieces(s[b + 1..])
  }

  // ---------------------------------------------------------------- lines

  // Lines with their line feeds; the last one has none.
  function Lines(s: string): (lines: seq<string>)
    ensures |lines| >= 1
    decreases |s|
  {
    var n := Find(s, '\n');
    if n == |s| then [s] else [s[..n + 1]] + Lines(s[n + 1..])
  }

  function Joined(lines: seq<string>): string {
    if lines == [] then "" else lines[0] + Joined(lines[1..])
  }

  function Trim(s: string): string {
    if s != "" && Space(s[0]) then Trim(s[1..])
    else if s != "" && Space(s[|s| - 1]) then Trim(s[..|s| - 1])
    else s
  }

  predicate Rule(line: string) {
    Trim(line) == "---"
  }

  predicate Marker(line: string) {
    HasPrefix(Trim(line), "```") || HasPrefix(Trim(line), "~~~")
  }

  // The frontmatter field a line belongs to: its own if it starts one, or the previous line's.
  function FieldAt(field: string, line: string): string {
    if line != "" && line[0] != ' ' && line[0] != '\t' && line[0] != '-' then line[..Find(line, ':')] else field
  }

  predicate Listed(field: string) {
    field == "pages" || field == "elements"
  }

  // Where a scan of lines stands: in frontmatter, in prose of which `text` is pending, or in a fence.
  datatype Mode = Front(field: string) | Prose(text: string) | Fenced(fence: string)

  function Scan(lines: seq<string>, mode: Mode): seq<Piece>
    decreases |lines|
  {
    if lines == [] then (if mode.Prose? then ProsePieces(mode.text) else [])
    else
      var line, rest := lines[0], lines[1..];
      match mode
      case Front(field) =>
        if Rule(line) then Lits(line) + Scan(rest, Prose(""))
        else
          var here := FieldAt(field, line);
          (if Listed(here) then RefPieces(line) else Lits(line)) + Scan(rest, Front(here))
      case Prose(text) =>
        if Marker(line) then ProsePieces(text) + Lits(line) + Scan(rest, Fenced(Fence(line)))
        else Scan(rest, Prose(text + line))
      case Fenced(fence) =>
        Lits(line) + Scan(rest, if Marker(line) && HasPrefix(Trim(line), fence) then Prose("") else mode)
  }

  function Fence(line: string): string
    requires Marker(line)
  {
    Trim(line)[..3]
  }

  function NotePieces(body: string): seq<Piece> {
    var lines := Lines(body);
    if Rule(lines[0]) then Lits(lines[0]) + Scan(lines[1..], Front("")) else Scan(lines, Prose(""))
  }

  function Remapped(body: string, f: Renaming): string {
    Render(NotePieces(body), f)
  }

  // ---------------------------------------------------------------- pieces: laws

  lemma {:induction false} RenderAppend(ps: seq<Piece>, qs: seq<Piece>, f: Renaming)
    ensures Render(ps + qs, f) == Render(ps, f) + Render(qs, f)
  {
    if ps == [] {
      assert ps + qs == qs;
    } else {
      assert (ps + qs)[1..] == ps[1..] + qs;
      RenderAppend(ps[1..], qs, f);
    }
  }

  lemma {:induction false} RenamedAppend(ps: seq<Piece>, qs: seq<Piece>, f: Renaming)
    ensures RenamedAll(ps + qs, f) == RenamedAll(ps, f) + RenamedAll(qs, f)
  {
    if ps == [] {
      assert ps + qs == qs;
    } else {
      assert (ps + qs)[1..] == ps[1..] + qs;
      RenamedAppend(ps[1..], qs, f);
    }
  }

  lemma {:induction false} LitsPlain(s: string, f: Renaming)
    ensures Render(Lits(s), f) == s && RenamedAll(Lits(s), f) == Lits(s)
  {
    if s != "" {
      assert Lits(s)[1..] == Lits(s[1..]);
      LitsPlain(s[1..], f);
    } else {
      assert Lits(s) == [];
    }
  }

  // Two renamings in a row are one.
  lemma {:induction false} RenderRenamed(ps: seq<Piece>, f: Renaming, g: Renaming)
    ensures Render(RenamedAll(ps, f), g) == Render(ps, Then(f, g))
  {
    if ps != [] { RenderRenamed(ps[1..], f, g); }
  }

  // ---------------------------------------------------------------- what a renaming can change

  // Position i is in the part of a reference that may differ.
  ghost predicate Excused(s: string, t: string, i: int) {
    exists k :: RefAt(s, k) && RefAt(t, k) && k + 4 <= i < k + 31
  }

  // Where s and t differ, both hold a reference and only the part after its prefix differs.
  ghost predicate Like(s: string, t: string) {
    && |s| == |t|
    && forall i :: 0 <= i < |s| ==> s[i] == t[i] || Excused(s, t, i)
  }

  // Differences are between letters or digits.
  predicate Alike(s: string, t: string) {
    && |s| == |t|
    && forall i :: 0 <= i < |s| ==> s[i] == t[i] || (Alphanumeric(s[i]) && Alphanumeric(t[i]))
  }

  lemma LikeAlike(s: string, t: string)
    requires Like(s, t)
    ensures Alike(s, t) && Alike(t, s)
  {
  }

  lemma RefShifts(s: string, a: string, b: string, k: int)
    requires RefAt(s, k)
    ensures RefAt(a + s + b, |a| + k)
  {
    assert forall i :: 0 <= i < |s| ==> (a + s + b)[|a| + i] == s[i];
  }

  lemma ExcusedShifts(s: string, t: string, i: int, a: string, a': string, b: string, b': string)
    requires Excused(s, t, i) && |a| == |a'|
    ensures Excused(a + s + b, a' + t + b', |a| + i)
  {
    hide RefAt;
    var k :| RefAt(s, k) && RefAt(t, k) && k + 4 <= i < k + 31;
    RefShifts(s, a, b, k);
    RefShifts(t, a', b', k);
  }

  lemma LikeAppend(s: string, t: string, s': string, t': string)
    requires Like(s, t) && Like(s', t')
    ensures Like(s + s', t + t')
  {
    hide Excused;
    forall i | 0 <= i < |s + s'| ensures (s + s')[i] == (t + t')[i] || Excused(s + s', t + t', i) {
      assert "" + s + s' == s + s' && "" + t + t' == t + t' && s + s' + "" == s + s' && t + t' + "" == t + t';
      if i < |s| {
        if Excused(s, t, i) { ExcusedShifts(s, t, i, "", "", s', t'); }
      } else {
        if Excused(s', t', i - |s|) { ExcusedShifts(s', t', i - |s|, s, t, "", ""); }
      }
    }
  }

  lemma PieceLike(p: Piece, f: Renaming)
    requires p.Ref? ==> IsRef(p.id)
    requires KeepsShape(f)
    ensures Like(Text(p, Same()), Text(p, f))
  {
  }

  lemma {:induction false} RenderLike(ps: seq<Piece>, f: Renaming)
    requires Sound(ps) && KeepsShape(f)
    ensures Like(Render(ps, Same()), Render(ps, f))
  {
    if ps != [] {
      PieceLike(ps[0], f);
      RenderLike(ps[1..], f);
      LikeAppend(Text(ps[0], Same()), Text(ps[0], f), Render(ps[1..], Same()), Render(ps[1..], f));
    }
  }

  // ---------------------------------------------------------------- decisions are not changed

  lemma RefAtStable(s: string, t: string)
    requires Like(s, t) && RefAt(t, 0)
    ensures RefAt(s, 0)
  {
  }

  lemma AttributeStable(before: bool, s: string, t: string)
    requires Like(s, t) && AttributeAt(before, t)
    ensures AttributeAt(before, s)
  {
  }

  lemma TagStable(s: string, t: string)
    requires Like(s, t) && TagAt(t)
    ensures TagAt(s)
  {
    FindAlike(s, t, '>');
  }

  lemma FindAlike(s: string, t: string, c: char)
    requires Alike(s, t) && !Alphanumeric(c)
    ensures Find(s, c) == Find(t, c)
  {
    var m, n := Find(s, c), Find(t, c);
    if m < |s| { assert t[m] == c; }
    if n < |t| { assert s[n] == c; }
  }

  // ---------------------------------------------------------------- references in a line

  lemma {:induction false} RefPiecesFlat(s: string)
    ensures Sound(RefPieces(s)) && Render(RefPieces(s), Same()) == s
    decreases |s|
  {
    if s == "" {
    } else if RefAt(s, 0) {
      RefPiecesFlat(s[31..]);
      assert s == s[..31] + s[31..];
    } else {
      RefPiecesFlat(s[1..]);
    }
  }

  lemma {:induction false} RefPiecesStable(s: string, f: Renaming)
    requires KeepsShape(f)
    ensures RefPieces(Render(RefPieces(s), f)) == RenamedAll(RefPieces(s), f)
    decreases |s|
  {
    hide Like;
    var t := Render(RefPieces(s), f);
    RefPiecesFlat(s);
    RenderLike(RefPieces(s), f);
    LikeAlike(s, t);
    if s == "" {
    } else if RefAt(s, 0) {
      RefPiecesStable(s[31..], f);
      assert t[..31] == f(s[..31]) && t[31..] == Render(RefPieces(s[31..]), f);
    } else {
      RefPiecesStable(s[1..], f);
      assert t[0] == s[0] && t[1..] == Render(RefPieces(s[1..]), f);
      if RefAt(t, 0) { RefAtStable(s, t); }
    }
  }

  // ---------------------------------------------------------------- tags

  lemma {:induction false} TagPiecesFlat(before: bool, s: string)
    ensures Sound(TagPieces(before, s)) && Render(TagPieces(before, s), Same()) == s
    decreases |s|
  {
    if s == "" {
    } else if AttributeAt(before, s) {
      TagPiecesFlat(false, s[38..]);
      AttributeRender(s, TagPieces(false, s[38..]), Same());
      AttributeSound(before, s, TagPieces(false, s[38..]));
      assert s == s[..6] + s[6..37] + s[37..38] + s[38..];
    } else {
      TagPiecesFlat(Word(s[0]), s[1..]);
    }
  }

  lemma AttributeSound(before: bool, s: string, rest: seq<Piece>)
    requires AttributeAt(before, s) && Sound(rest)
    ensures Sound(Lits(s[..6]) + [Ref(s[6..37])] + Lits(s[37..38]) + rest)
  {
  }

  lemma AttributeRender(s: string, rest: seq<Piece>, f: Renaming)
    requires |s| >= 38
    ensures Render(Lits(s[..6]) + [Ref(s[6..37])] + Lits(s[37..38]) + rest, f) == s[..6] + f(s[6..37]) + s[37..38] + Render(rest, f)
    ensures RenamedAll(Lits(s[..6]) + [Ref(s[6..37])] + Lits(s[37..38]) + rest, f) ==
      Lits(s[..6]) + [Ref(f(s[6..37]))] + Lits(s[37..38]) + RenamedAll(rest, f)
  {
    var a, r, q := Lits(s[..6]), [Ref(s[6..37])], Lits(s[37..38]);
    RenderAppend(a + r + q, rest, f);
    RenderAppend(a + r, q, f);
    RenderAppend(a, r, f);
    RenamedAppend(a + r + q, rest, f);
    RenamedAppend(a + r, q, f);
    RenamedAppend(a, r, f);
    LitsPlain(s[..6], f);
    LitsPlain(s[37..38], f);
    assert r[1..] == [];
  }

  lemma {:induction false} TagPiecesStable(before: bool, s: string, f: Renaming)
    requires KeepsShape(f)
    ensures TagPieces(before, Render(TagPieces(before, s), f)) == RenamedAll(TagPieces(before, s), f)
    decreases |s|
  {
    hide Like;
    var t := Render(TagPieces(before, s), f);
    TagPiecesFlat(before, s);
    RenderLike(TagPieces(before, s), f);
    if s == "" {
    } else if AttributeAt(before, s) {
      var rest := TagPieces(false, s[38..]);
      TagPiecesStable(false, s[38..], f);
      AttributeRender(s, rest, f);
      NewAttribute(before, s, f(s[6..37]), Render(rest, f));
    } else {
      TagPiecesStable(Word(s[0]), s[1..], f);
      assert t[0] == s[0] && t[1..] == Render(TagPieces(Word(s[0]), s[1..]), f);
      if AttributeAt(before, t) { AttributeStable(before, s, t); }
    }
  }

  lemma NewAttribute(before: bool, s: string, id: string, rest: string)
    requires AttributeAt(before, s) && IsRef(id)
    ensures TagPieces(before, s[..6] + id + s[37..38] + rest) ==
      Lits(s[..6]) + [Ref(id)] + Lits(s[37..38]) + TagPieces(false, rest)
  {
    var t := s[..6] + id + s[37..38] + rest;
    assert t[..6] == s[..6] && t[6..37] == id && t[37..38] == s[37..38] && t[38..] == rest;
    assert forall i :: 6 <= i < 37 ==> t[i] == id[i - 6];
  }

  // ---------------------------------------------------------------- text and prose

  lemma {:induction false} TextPiecesFlat(s: string)
    ensures Sound(TextPieces(s)) && Render(TextPieces(s), Same()) == s
    decreases |s|
  {
    if s == "" {
    } else if TagAt(s) {
      var n := Find(s, '>') + 1;
      TagPiecesFlat(false, s[..n]);
      TextPiecesFlat(s[n..]);
      RenderAppend(TagPieces(false, s[..n]), TextPieces(s[n..]), Same());
      assert s == s[..n] + s[n..];
    } else {
      TextPiecesFlat(s[1..]);
    }
  }

  lemma SameLength(ps: seq<Piece>, f: Renaming)
    requires Sound(ps) && KeepsShape(f)
    ensures |Render(ps, f)| == |Render(ps, Same())|
  {
    RenderLike(ps, f);
  }

  lemma {:induction false} TextPiecesStable(s: string, f: Renaming)
    requires KeepsShape(f)
    ensures TextPieces(Render(TextPieces(s), f)) == RenamedAll(TextPieces(s), f)
    decreases |s|
  {
    hide Like;
    var t := Render(TextPieces(s), f);
    TextPiecesFlat(s);
    RenderLike(TextPieces(s), f);
    if s == "" {
    } else if TagAt(s) {
      var n := Find(s, '>') + 1;
      var tag, rest := TagPieces(false, s[..n]), TextPieces(s[n..]);
      TagPiecesStable(false, s[..n], f);
      TextPiecesStable(s[n..], f);
      RenderAppend(tag, rest, f);
      RenamedAppend(tag, rest, f);
      TagPiecesFlat(false, s[..n]);
      SameLength(tag, f);
      assert t[..n] == Render(tag, f) && t[n..] == Render(rest, f);
      TagStillThere(s, t);
    } else {
      TextPiecesStable(s[1..], f);
      assert t[0] == s[0] && t[1..] == Render(TextPieces(s[1..]), f);
      if TagAt(t) { TagStable(s, t); }
    }
  }

  lemma TagStillThere(s: string, t: string)
    requires Like(s, t) && TagAt(s)
    ensures TagAt(t) && Find(t, '>') == Find(s, '>')
  {
    LikeSymmetric(s, t);
    TagStable(t, s);
    LikeAlike(s, t);
    FindAlike(s, t, '>');
  }

  lemma LikeSymmetric(s: string, t: string)
    requires Like(s, t)
    ensures Like(t, s)
  {
  }

  lemma {:induction false} ProsePiecesFlat(s: string)
    ensures Sound(ProsePieces(s)) && Render(ProsePieces(s), Same()) == s
    decreases |s|
  {
    hide Sound, Render, TextPieces, Lits, SpanOf;
    var (a, b) := SpanOf(s);
    TextPiecesFlat(s);
    if b < |s| {
      TextPiecesFlat(s[..a]);
      ProsePiecesFlat(s[b + 1..]);
      SpanRender(s, a, b, Same());
      LitsSound(s[a..b + 1]);
      SoundAppend(TextPieces(s[..a]), Lits(s[a..b + 1]));
      SoundAppend(TextPieces(s[..a]) + Lits(s[a..b + 1]), ProsePieces(s[b + 1..]));
      assert s == s[..a] + s[a..b + 1] + s[b + 1..];
    }
  }

  lemma SpanRender(s: string, a: nat, b: nat, f: Renaming)
    requires a <= b < |s|
    ensures var ps := TextPieces(s[..a]) + Lits(s[a..b + 1]) + ProsePieces(s[b + 1..]);
      Render(ps, f) == Render(TextPieces(s[..a]), f) + s[a..b + 1] + Render(ProsePieces(s[b + 1..]), f) &&
      RenamedAll(ps, f) == RenamedAll(TextPieces(s[..a]), f) + Lits(s[a..b + 1]) + RenamedAll(ProsePieces(s[b + 1..]), f)
  {
    var x, y, z := TextPieces(s[..a]), Lits(s[a..b + 1]), ProsePieces(s[b + 1..]);
    RenderAppend(x + y, z, f);
    RenderAppend(x, y, f);
    RenamedAppend(x + y, z, f);
    RenamedAppend(x, y, f);
    LitsPlain(s[a..b + 1], f);
  }

  lemma SpanAlike(s: string, t: string)
    requires Alike(s, t)
    ensures SpanOf(s) == SpanOf(t)
  {
    FindAlike(s, t, '`');
    var a := Find(s, '`');
    if a < |s| { FindAlike(s[a + 1..], t[a + 1..], '`'); }
  }

  lemma ThreeParts(t: string, x: string, y: string, z: string)
    requires t == x + y + z
    ensures t[..|x|] == x && t[|x|..|x| + |y|] == y && t[|x| + |y|..] == z
  {
  }

  lemma {:induction false} ProsePiecesStable(s: string, f: Renaming)
    requires KeepsShape(f)
    ensures ProsePieces(Render(ProsePieces(s), f)) == RenamedAll(ProsePieces(s), f)
    decreases |s|
  {
    hide Like, Alike, SpanOf, Sound, Render, RenamedAll, TextPieces, Lits, KeepsShape;
    var t := Render(ProsePieces(s), f);
    ProsePiecesFlat(s);
    RenderLike(ProsePieces(s), f);
    LikeAlike(s, t);
    SpanAlike(s, t);
    var (a, b) := SpanOf(s);
    if b == |s| {
      TextPiecesStable(s, f);
      SameLength(ProsePieces(s), f);
    } else {
      TextPiecesStable(s[..a], f);
      ProsePiecesStable(s[b + 1..], f);
      SpanRender(s, a, b, f);
      TextPiecesFlat(s[..a]);
      SameLength(TextPieces(s[..a]), f);
      ThreeParts(t, Render(TextPieces(s[..a]), f), s[a..b + 1], Render(ProsePieces(s[b + 1..]), f));
    }
  }

  // ---------------------------------------------------------------- lines look the same

  lemma {:induction false} TrimAlike(s: string, t: string)
    requires Alike(s, t)
    ensures Alike(Trim(s), Trim(t))
    decreases |s|
  {
    if s != "" && Space(s[0]) {
      TrimAlike(s[1..], t[1..]);
    } else if s != "" && Space(s[|s| - 1]) {
      TrimAlike(s[..|s| - 1], t[..|t| - 1]);
    }
  }

  lemma RuleAlike(s: string, t: string)
    requires Alike(s, t)
    ensures Rule(s) == Rule(t)
  {
    TrimAlike(s, t);
    assert Alike(Trim(s), Trim(t));
  }

  lemma PrefixAlike(s: string, t: string, prefix: string)
    requires Alike(s, t) && prefix in {"```", "~~~"}
    ensures HasPrefix(s, prefix) == HasPrefix(t, prefix)
    ensures HasPrefix(s, prefix) ==> s[..3] == t[..3]
  {
    if |s| >= 3 {
      assert s[..3] == prefix <==> s[0] == prefix[0] && s[1] == prefix[1] && s[2] == prefix[2];
      assert t[..3] == prefix <==> t[0] == prefix[0] && t[1] == prefix[1] && t[2] == prefix[2];
    }
  }

  lemma MarkerAlike(s: string, t: string)
    requires Alike(s, t)
    ensures Marker(s) == Marker(t)
    ensures Marker(s) ==> Fence(s) == Fence(t) && Fence(s) in {"```", "~~~"}
  {
    hide Trim;
    TrimAlike(s, t);
    PrefixAlike(Trim(s), Trim(t), "```");
    PrefixAlike(Trim(s), Trim(t), "~~~");
  }

  // A line that belongs to a listed field still does, because the field's name is not in a reference.
  lemma FieldStable(field: string, line: string, f: Renaming)
    requires KeepsShape(f) && Listed(FieldAt(field, line))
    ensures FieldAt(field, Render(RefPieces(line), f)) == FieldAt(field, line)
  {
    var t := Render(RefPieces(line), f);
    RefPiecesFlat(line);
    RenderLike(RefPieces(line), f);
    LikeAlike(line, t);
    FindAlike(line, t, ':');
    if line != "" && line[0] != ' ' && line[0] != '\t' && line[0] != '-' {
      var n := Find(line, ':');
      NamePart(line, t, n);
    }
  }

  lemma NamePart(s: string, t: string, n: nat)
    requires Like(s, t) && n <= |s| && Listed(s[..n])
    ensures s[..n] == t[..n]
  {
    assert forall i :: 0 <= i < n ==> s[..n][i] == s[i] && s[i] != '_';
    forall i | 0 <= i < n ensures s[i] == t[i] {
      assert forall k :: RefAt(s, k) ==> s[k + 3] == '_';
    }
  }

  // ---------------------------------------------------------------- notes

  function Pending(mode: Mode): string {
    if mode.Prose? then mode.text else ""
  }

  ghost predicate Flat(lines: seq<string>, mode: Mode) {
    Sound(Scan(lines, mode)) && Render(Scan(lines, mode), Same()) == Pending(mode) + Joined(lines)
  }

  lemma LineFlat(lines: seq<string>, mode: Mode, next: Mode, ps: seq<Piece>)
    requires lines != [] && Flat(lines[1..], next) && Pending(next) == "" && Sound(ps)
    requires Scan(lines, mode) == ps + Scan(lines[1..], next) && Render(ps, Same()) == Pending(mode) + lines[0]
    ensures Flat(lines, mode)
  {
    hide Scan, Render, Sound, Pending;
    Follow(ps, Scan(lines[1..], next), Same());
    Regroup(Pending(mode), lines[0], Joined(lines[1..]));
  }

  lemma Regroup(a: string, b: string, c: string)
    ensures a + b + ("" + c) == a + (b + c)
  {
  }

  lemma {:induction false} ScanFlat(lines: seq<string>, mode: Mode)
    ensures Flat(lines, mode)
    decreases |lines|
  {
    hide Flat, Sound, Render, Marker, Rule, HasPrefix, FieldAt, Listed, Fence, Trim;
    if lines == [] {
      EmptyFlat(mode);
    } else {
      var line, rest := lines[0], lines[1..];
      LitsPlain(line, Same());
      LitsSound(line);
      match mode
      case Front(field) =>
        var next := if Rule(line) then Prose("") else Front(FieldAt(field, line));
        ScanFlat(rest, next);
        RefPiecesFlat(line);
        LineFlat(lines, mode, next, if !Rule(line) && Listed(FieldAt(field, line)) then RefPieces(line) else Lits(line));
      case Prose(text) =>
        if Marker(line) {
          ProsePiecesFlat(text);
          ScanFlat(rest, Fenced(Fence(line)));
          Follow(ProsePieces(text), Lits(line), Same());
          LineFlat(lines, mode, Fenced(Fence(line)), ProsePieces(text) + Lits(line));
        } else {
          ScanFlat(rest, Prose(text + line));
          PendingFlat(lines, text);
        }
      case Fenced(fence) =>
        var next := if Marker(line) && HasPrefix(Trim(line), fence) then Prose("") else mode;
        ScanFlat(rest, next);
        LineFlat(lines, mode, next, Lits(line));
    }
  }

  lemma EmptyFlat(mode: Mode)
    ensures Flat([], mode)
  {
    if mode.Prose? { ProsePiecesFlat(mode.text); }
  }

  lemma PendingFlat(lines: seq<string>, text: string)
    requires lines != [] && !Marker(lines[0]) && Flat(lines[1..], Prose(text + lines[0]))
    ensures Flat(lines, Prose(text))
  {
    hide Sound, Render, Marker;
  }

  lemma Follow(ps: seq<Piece>, qs: seq<Piece>, f: Renaming)
    requires Sound(ps) && Sound(qs)
    ensures Sound(ps + qs) && Render(ps + qs, f) == Render(ps, f) + Render(qs, f)
    ensures RenamedAll(ps + qs, f) == RenamedAll(ps, f) + RenamedAll(qs, f)
  {
    SoundAppend(ps, qs);
    RenderAppend(ps, qs, f);
    RenamedAppend(ps, qs, f);
  }

  // t cut at the lengths of `lines`.
  function Recut(lines: seq<string>, t: string): seq<string> {
    if lines == [] || |t| < |lines[0]| then [] else [t[..|lines[0]|]] + Recut(lines[1..], t[|lines[0]|..])
  }

  // The mode in which a second pass stands when the first one stood in `mode` and wrote `out`.
  function Again(mode: Mode, out: string): Mode {
    if mode.Prose? && |mode.text| <= |out| then Prose(out[..|mode.text|]) else mode
  }

  lemma ScanAlike(lines: seq<string>, mode: Mode, f: Renaming)
    requires KeepsShape(f)
    ensures Alike(Pending(mode) + Joined(lines), Render(Scan(lines, mode), f))
  {
    hide Like, Alike, Scan, Render, Sound;
    ScanFlat(lines, mode);
    RenderLike(Scan(lines, mode), f);
    LikeAlike(Render(Scan(lines, mode), Same()), Render(Scan(lines, mode), f));
  }

  ghost predicate Stable(lines: seq<string>, mode: Mode, f: Renaming) {
    var out := Render(Scan(lines, mode), f);
    && |Pending(mode)| <= |out|
    && Scan(Recut(lines, out[|Pending(mode)|..]), Again(mode, out)) == RenamedAll(Scan(lines, mode), f)
  }

  // A line is written as `head`, the rest in `next`.
  lemma LineStable(lines: seq<string>, mode: Mode, next: Mode, ps: seq<Piece>, f: Renaming)
    requires KeepsShape(f) && lines != [] && Sound(ps) && !mode.Prose? && Pending(next) == "" && Stable(lines[1..], next, f)
    requires Scan(lines, mode) == ps + Scan(lines[1..], next)
    requires |Render(ps, f)| == |lines[0]|
    requires forall more :: Scan([Render(ps, f)] + more, mode) == RenamedAll(ps, f) + Scan(more, next)
    ensures Stable(lines, mode, f)
  {
    hide Scan, Sound, Render, RenamedAll, KeepsShape;
    var out, rest := Render(Scan(lines, mode), f), Render(Scan(lines[1..], next), f);
    ScanFlat(lines[1..], next);
    Follow(ps, Scan(lines[1..], next), f);
    assert out == Render(ps, f) + rest;
    assert out[..|lines[0]|] == Render(ps, f) && out[|lines[0]|..] == rest && rest[0..] == rest && out[0..] == out;
    assert Recut(lines, out) == [Render(ps, f)] + Recut(lines[1..], rest);
    assert Again(next, rest) == next by { if next.Prose? { assert rest[..0] == ""; } }
  }

  lemma FrontStable(lines: seq<string>, field: string, f: Renaming)
    requires KeepsShape(f) && lines != []
    requires Stable(lines[1..], if Rule(lines[0]) then Prose("") else Front(FieldAt(field, lines[0])), f)
    ensures Stable(lines, Front(field), f)
  {
    hide Stable, Render, RenamedAll, Sound, Rule, FieldAt, Listed, RefPieces, KeepsShape;
    var line := lines[0];
    var here := FieldAt(field, line);
    LitsPlain(line, f);
    LitsSound(line);
    Heads(line);
    if Rule(line) {
      LineStable(lines, Front(field), Prose(""), Lits(line), f);
    } else if !Listed(here) {
      LineStable(lines, Front(field), Front(here), Lits(line), f);
    } else {
      var t := Render(RefPieces(line), f);
      RefPiecesFlat(line);
      RefPiecesStable(line, f);
      FieldStable(field, line, f);
      RenderLike(RefPieces(line), f);
      LikeAlike(line, t);
      RuleAlike(line, t);
      Heads(t);
      LineStable(lines, Front(field), Front(here), RefPieces(line), f);
    }
  }

  lemma Heads(line: string)
    ensures forall more: seq<string> {:trigger [line] + more} :: ([line] + more)[0] == line && ([line] + more)[1..] == more
  {
  }

  lemma FencedStable(lines: seq<string>, fence: string, f: Renaming)
    requires KeepsShape(f) && lines != []
    requires Stable(lines[1..], if Marker(lines[0]) && HasPrefix(Trim(lines[0]), fence) then Prose("") else Fenced(fence), f)
    ensures Stable(lines, Fenced(fence), f)
  {
    hide Stable, Render, RenamedAll, Sound, Marker, HasPrefix, KeepsShape, Trim;
    var line := lines[0];
    LitsPlain(line, f);
    LitsSound(line);
    Heads(line);
    LineStable(lines, Fenced(fence), if Marker(line) && HasPrefix(Trim(line), fence) then Prose("") else Fenced(fence), Lits(line), f);
  }

  lemma ProseStable(lines: seq<string>, text: string, f: Renaming)
    requires KeepsShape(f) && lines != []
    requires Stable(lines[1..], if Marker(lines[0]) then Fenced(Fence(lines[0])) else Prose(text + lines[0]), f)
    ensures Stable(lines, Prose(text), f)
  {
    if Marker(lines[0]) { MarkerStable(lines, text, f); } else { MoreProseStable(lines, text, f); }
  }

  lemma MarkerStable(lines: seq<string>, text: string, f: Renaming)
    requires KeepsShape(f) && lines != [] && Marker(lines[0]) && Stable(lines[1..], Fenced(Fence(lines[0])), f)
    ensures Stable(lines, Prose(text), f)
  {
    hide Sound, Render, RenamedAll, KeepsShape, Marker, Fence;
    var line, next := lines[0], Fenced(Fence(lines[0]));
    var rest := Render(Scan(lines[1..], next), f);
    var said := Render(ProsePieces(text), f);
    ProsePiecesFlat(text);
    ProsePiecesStable(text, f);
    SameLength(ProsePieces(text), f);
    LitsPlain(line, f);
    LitsSound(line);
    ScanFlat(lines[1..], next);
    Follow(ProsePieces(text), Lits(line), f);
    Follow(ProsePieces(text) + Lits(line), Scan(lines[1..], next), f);
    ThreeParts(Render(Scan(lines, Prose(text)), f), said, line, rest);
    var out := Render(Scan(lines, Prose(text)), f);
    assert out[|text|..] == line + rest && (line + rest)[..|line|] == line && (line + rest)[|line|..] == rest && rest[0..] == rest;
    assert Recut(lines, line + rest) == [line] + Recut(lines[1..], rest);
    Heads(line);
  }

  lemma ProsePends(lines: seq<string>, text: string)
    requires lines != [] && !Marker(lines[0])
    ensures Scan(lines, Prose(text)) == Scan(lines[1..], Prose(text + lines[0]))
  {
    hide Marker;
  }

  lemma MoreProseStable(lines: seq<string>, text: string, f: Renaming)
    requires KeepsShape(f) && lines != [] && !Marker(lines[0]) && Stable(lines[1..], Prose(text + lines[0]), f)
    ensures Stable(lines, Prose(text), f)
  {
    hide Sound, Render, RenamedAll, KeepsShape, Marker, Alike, Scan;
    var line, n := lines[0], |text|;
    ProsePends(lines, text);
    var out := Render(Scan(lines, Prose(text)), f);
    ScanAlike(lines, Prose(text), f);
    LineAlike(text, line, Joined(lines[1..]), out);
    var line' := out[n..n + |line|];
    MarkerAlike(line, line');
    assert out[n..][..|line|] == line' && out[n..][|line|..] == out[n + |line|..];
    assert Recut(lines, out[n..]) == [line'] + Recut(lines[1..], out[n + |line|..]);
    assert out[..n] + line' == out[..n + |line|];
    Heads(line');
    ProsePends([line'] + Recut(lines[1..], out[n + |line|..]), out[..n]);
  }

  lemma LineAlike(text: string, line: string, rest: string, out: string)
    requires Alike(text + (line + rest), out)
    ensures |out| == |text| + |line| + |rest| && Alike(line, out[|text|..|text| + |line|])
  {
    var s := text + (line + rest);
    assert s[|text|..|text| + |line|] == line;
    assert forall i :: 0 <= i < |line| ==> line[i] == s[|text| + i];
  }

  lemma {:induction false} ScanStable(lines: seq<string>, mode: Mode, f: Renaming)
    requires KeepsShape(f)
    ensures Stable(lines, mode, f)
    decreases |lines|
  {
    hide Stable, KeepsShape, Marker, Rule, HasPrefix, FieldAt, Trim, Fence;
    if lines == [] {
      EmptyStable(mode, f);
    } else {
      match mode
      case Front(field) =>
        ScanStable(lines[1..], if Rule(lines[0]) then Prose("") else Front(FieldAt(field, lines[0])), f);
        FrontStable(lines, field, f);
      case Prose(text) =>
        ScanStable(lines[1..], if Marker(lines[0]) then Fenced(Fence(lines[0])) else Prose(text + lines[0]), f);
        ProseStable(lines, text, f);
      case Fenced(fence) =>
        ScanStable(lines[1..], if Marker(lines[0]) && HasPrefix(Trim(lines[0]), fence) then Prose("") else Fenced(fence), f);
        FencedStable(lines, fence, f);
    }
  }

  lemma EmptyStable(mode: Mode, f: Renaming)
    requires KeepsShape(f)
    ensures Stable([], mode, f)
  {
    hide KeepsShape;
    if mode.Prose? {
      ProsePiecesFlat(mode.text);
      SameLength(ProsePieces(mode.text), f);
      ProsePiecesStable(mode.text, f);
      var out := Render(ProsePieces(mode.text), f);
      assert out[..|mode.text|] == out;
    }
  }

  lemma {:induction false} LinesJoin(s: string)
    ensures Joined(Lines(s)) == s
    decreases |s|
  {
    var n := Find(s, '\n');
    if n < |s| {
      LinesJoin(s[n + 1..]);
      assert s == s[..n + 1] + s[n + 1..];
    }
  }

  lemma {:induction false} LinesAlike(s: string, t: string)
    requires Alike(s, t)
    ensures Lines(t) == Recut(Lines(s), t)
    decreases |s|
  {
    FindAlike(s, t, '\n');
    var n := Find(s, '\n');
    if n < |s| {
      LinesAlike(s[n + 1..], t[n + 1..]);
    } else {
      assert t[..|s|] == t;
    }
  }

  // ---------------------------------------------------------------- the renaming laws

  lemma NoteFlat(body: string)
    ensures Sound(NotePieces(body)) && Render(NotePieces(body), Same()) == body
  {
    hide Render, Sound, Scan, Rule;
    var lines := Lines(body);
    LinesJoin(body);
    if Rule(lines[0]) {
      LitsSound(lines[0]);
      LitsPlain(lines[0], Same());
      ScanFlat(lines[1..], Front(""));
      Follow(Lits(lines[0]), Scan(lines[1..], Front("")), Same());
    } else {
      ScanFlat(lines, Prose(""));
    }
  }

  // The pieces of a renamed note are the renamed pieces of the note: its structural references are
  // the images of the original ones, in order, and everything else is where it was.
  lemma NoteStable(body: string, f: Renaming)
    requires KeepsShape(f)
    ensures NotePieces(Remapped(body, f)) == RenamedAll(NotePieces(body), f)
  {
    hide Render, RenamedAll, Sound, Scan, Rule, KeepsShape, Alike;
    var lines, out := Lines(body), Remapped(body, f);
    LinesJoin(body);
    NoteFlat(body);
    RenderLike(NotePieces(body), f);
    LikeAlike(body, out);
    LinesAlike(body, out);
    if Rule(lines[0]) {
      var rest := Render(Scan(lines[1..], Front("")), f);
      LitsSound(lines[0]);
      LitsPlain(lines[0], f);
      ScanFlat(lines[1..], Front(""));
      Follow(Lits(lines[0]), Scan(lines[1..], Front("")), f);
      ScanStable(lines[1..], Front(""), f);
      assert out[..|lines[0]|] == lines[0] && out[|lines[0]|..] == rest && rest[0..] == rest;
    } else {
      ScanStable(lines, Prose(""), f);
      assert out[0..] == out && out[..0] == "";
      LineAlike("", lines[0], Joined(lines[1..]), out);
      assert "" + (lines[0] + Joined(lines[1..])) == body;
      RuleAlike(lines[0], out[..|lines[0]|]);
    }
  }

  // The identity renaming returns the body as it is.
  lemma RemapIdentity(body: string)
    ensures Remapped(body, Same()) == body
  {
    NoteFlat(body);
  }

  // Renaming by f and then by g is renaming by g after f, for every f that keeps the shape of references.
  lemma RemapFusion(body: string, f: Renaming, g: Renaming)
    requires KeepsShape(f)
    ensures Remapped(Remapped(body, f), g) == Remapped(body, Then(f, g))
  {
    NoteStable(body, f);
    RenderRenamed(NotePieces(body), f, g);
  }

  // A renaming keeps the length, and what it changes is the part after the prefix of a reference.
  lemma RemapChangesReferencesOnly(body: string, f: Renaming)
    requires KeepsShape(f)
    ensures |Remapped(body, f)| == |body| && Like(body, Remapped(body, f))
  {
    NoteFlat(body);
    RenderLike(NotePieces(body), f);
  }
}
