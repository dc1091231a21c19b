/** What renaming a note leaves alone, line by line, and the transducer that does it. */
module NoteRemapLines {
  import opened Strings
  import opened NoteRemap

  // ---------------------------------------------------------------- lines one at a time

  function After(mode: Mode, line: string): Mode {
    match mode
    case Front(field) => if Rule(line) then Prose("") else Front(FieldAt(field, line))
    case Prose(text) => if Marker(line) then Fenced(Fence(line)) else Prose(text + line)
    case Fenced(fence) => if Marker(line) && HasPrefix(Trim(line), fence) then Prose("") else mode
  }

  // Lines that are never touched: code, fences, rules, and frontmatter fields other than the two listed.
  predicate Verbatim(mode: Mode, line: string) {
    match mode
    case Front(field) => Rule(line) || !Listed(FieldAt(field, line))
    case Prose(_) => Marker(line)
    case Fenced(_) => true
  }

  function Out(lines: seq<string>, mode: Mode, f: Renaming): string {
    Render(Scan(lines, mode), f)
  }

  // The lines that the scan writes for `lines`.
  function Written(lines: seq<string>, mode: Mode, f: Renaming): seq<string> {
    if |Pending(mode)| <= |Out(lines, mode, f)| then Recut(lines, Out(lines, mode, f)[|Pending(mode)|..]) else []
  }

  lemma OutLength(lines: seq<string>, mode: Mode, f: Renaming)
    requires KeepsShape(f)
    ensures |Out(lines, mode, f)| == |Pending(mode)| + |Joined(lines)|
  {
    hide Scan, Render, Joined;
    ScanAlike(lines, mode, f);
  }

  ghost predicate Steps(lines: seq<string>, mode: Mode, f: Renaming) {
    lines != [] ==>
      var written := Written(lines, mode, f);
      written != [] && |written[0]| == |lines[0]| && written[1..] == Written(lines[1..], After(mode, lines[0]), f) &&
      (Verbatim(mode, lines[0]) ==> written[0] == lines[0])
  }

  lemma HeadFirst(lines: seq<string>, mode: Mode, next: Mode, ps: seq<Piece>, f: Renaming)
    requires KeepsShape(f) && lines != [] && !mode.Prose? && Pending(next) == "" && next == After(mode, lines[0])
    requires Scan(lines, mode) == ps + Scan(lines[1..], next) && |Render(ps, f)| == |lines[0]|
    requires Verbatim(mode, lines[0]) ==> Render(ps, f) == lines[0]
    ensures Steps(lines, mode, f)
  {
    hide Scan, Render, KeepsShape, After, Verbatim;
    var rest := Out(lines[1..], next, f);
    RenderAppend(ps, Scan(lines[1..], next), f);
    var out := Out(lines, mode, f);
    assert out == Render(ps, f) + rest;
    assert out[0..] == out && rest[0..] == rest && out[..|lines[0]|] == Render(ps, f) && out[|lines[0]|..] == rest;
  }

  lemma FrontSteps(lines: seq<string>, field: string, f: Renaming)
    requires KeepsShape(f) && lines != []
    ensures Steps(lines, Front(field), f)
  {
    hide Render, KeepsShape, Steps, RefPieces, Rule, FieldAt, Listed;
    var line := lines[0];
    var here := FieldAt(field, line);
    LitsPlain(line, f);
    if Rule(line) {
      HeadFirst(lines, Front(field), Prose(""), Lits(line), f);
    } else if Listed(here) {
      RefPiecesFlat(line);
      SameLength(RefPieces(line), f);
      HeadFirst(lines, Front(field), Front(here), RefPieces(line), f);
    } else {
      HeadFirst(lines, Front(field), Front(here), Lits(line), f);
    }
  }

  lemma FencedSteps(lines: seq<string>, fence: string, f: Renaming)
    requires KeepsShape(f) && lines != []
    ensures Steps(lines, Fenced(fence), f)
  {
    hide Render, KeepsShape, Steps, Marker, HasPrefix, Trim;
    LitsPlain(lines[0], f);
    HeadFirst(lines, Fenced(fence), After(Fenced(fence), lines[0]), Lits(lines[0]), f);
  }

  lemma ProseSteps(lines: seq<string>, text: string, f: Renaming)
    requires KeepsShape(f) && lines != []
    ensures Steps(lines, Prose(text), f)
  {
    hide Steps, KeepsShape, Marker;
    if Marker(lines[0]) { MarkerSteps(lines, text, f); } else { MoreProseSteps(lines, text, f); }
  }

  lemma MoreProseSteps(lines: seq<string>, text: string, f: Renaming)
    requires KeepsShape(f) && lines != [] && !Marker(lines[0])
    ensures Steps(lines, Prose(text), f)
  {
    hide Render, KeepsShape, Marker, Scan, Trim, Joined;
    var out := Out(lines, Prose(text), f);
    OutLength(lines, Prose(text), f);
    JoinedFirst(lines);
    ProsePends(lines, text);
    assert out[|text|..][|lines[0]|..] == out[|text| + |lines[0]|..];
  }

  lemma JoinedFirst(lines: seq<string>)
    requires lines != []
    ensures |Joined(lines)| >= |lines[0]|
  {
  }

  lemma MarkerPieces(lines: seq<string>, text: string)
    requires lines != [] && Marker(lines[0])
    ensures Scan(lines, Prose(text)) == ProsePieces(text) + Lits(lines[0]) + Scan(lines[1..], Fenced(Fence(lines[0])))
  {
    hide Marker, Fence, ProsePieces;
  }

  lemma MarkerSteps(lines: seq<string>, text: string, f: Renaming)
    requires KeepsShape(f) && lines != [] && Marker(lines[0])
    ensures Steps(lines, Prose(text), f)
  {
    hide Render, KeepsShape, Marker, Sound, Trim, Scan, Lits, ProsePieces, Fence;
    var line, next := lines[0], Fenced(Fence(lines[0]));
    var said, rest := Render(ProsePieces(text), f), Out(lines[1..], next, f);
    var out := Out(lines, Prose(text), f);
    MarkerPieces(lines, text);
    LitsPlain(line, f);
    ProsePiecesFlat(text);
    SameLength(ProsePieces(text), f);
    RenderAppend(ProsePieces(text), Lits(line), f);
    RenderAppend(ProsePieces(text) + Lits(line), Scan(lines[1..], next), f);
    ThreeParts(out, said, line, rest);
    assert out[|text|..] == line + rest;
    assert (line + rest)[..|line|] == line && (line + rest)[|line|..] == rest && rest[0..] == rest;
  }

  lemma WrittenSteps(lines: seq<string>, mode: Mode, f: Renaming)
    requires KeepsShape(f)
    ensures Steps(lines, mode, f)
  {
    hide KeepsShape;
    if lines != [] {
      match mode
      case Front(field) => FrontSteps(lines, field, f);
      case Prose(text) => ProseSteps(lines, text, f);
      case Fenced(fence) => FencedSteps(lines, fence, f);
    }
  }

  function Reached(lines: seq<string>, mode: Mode, i: nat): Mode {
    if i == 0 || lines == [] then mode else Reached(lines[1..], After(mode, lines[0]), i - 1)
  }

  lemma {:induction false} VerbatimFrom(lines: seq<string>, mode: Mode, i: nat, f: Renaming)
    requires KeepsShape(f) && i < |lines|
    ensures |Written(lines, mode, f)| == |lines|
    ensures Verbatim(Reached(lines, mode, i), lines[i]) ==> Written(lines, mode, f)[i] == lines[i]
    decreases i
  {
    hide KeepsShape, Verbatim, Written, After;
    WrittenSteps(lines, mode, f);
    WrittenCount(lines, mode, f);
    if i > 0 {
      VerbatimFrom(lines[1..], After(mode, lines[0]), i - 1, f);
    }
  }

  lemma {:induction false} WrittenCount(lines: seq<string>, mode: Mode, f: Renaming)
    requires KeepsShape(f)
    ensures |Written(lines, mode, f)| == |lines|
    decreases |lines|
  {
    hide KeepsShape, Verbatim, After;
    if lines == [] {
      OutLength(lines, mode, f);
    } else {
      WrittenSteps(lines, mode, f);
      WrittenCount(lines[1..], After(mode, lines[0]), f);
    }
  }

  // Where a note's scan stands before its line i.
  function ModeBefore(body: string, i: nat): Mode {
    var lines := Lines(body);
    if Rule(lines[0]) then (if i == 0 then Fenced("") else Reached(lines[1..], Front(""), i - 1))
    else Reached(lines, Prose(""), i)
  }

  // Fenced code, fences, rules and every frontmatter field but two keep each of their lines.
  lemma CodeAndFieldsUnchanged(body: string, i: nat, f: Renaming)
    requires KeepsShape(f) && i < |Lines(body)| && Verbatim(ModeBefore(body, i), Lines(body)[i])
    ensures |Lines(Remapped(body, f))| == |Lines(body)| && Lines(Remapped(body, f))[i] == Lines(body)[i]
  {
    hide KeepsShape, Verbatim, Written, After, Like, Render, Scan, Sound, Lines, Rule;
    var lines, out := Lines(body), Remapped(body, f);
    NoteWritten(body, f);
    if Rule(lines[0]) {
      if i > 0 {
        VerbatimFrom(lines[1..], Front(""), i - 1, f);
      } else {
        WrittenCount(lines[1..], Front(""), f);
      }
    } else {
      VerbatimFrom(lines, Prose(""), i, f);
    }
  }

  lemma NoteWritten(body: string, f: Renaming)
    requires KeepsShape(f)
    ensures Lines(Remapped(body, f)) ==
      if Rule(Lines(body)[0]) then [Lines(body)[0]] + Written(Lines(body)[1..], Front(""), f) else Written(Lines(body), Prose(""), f)
  {
    hide KeepsShape, Like, Render, Scan, Sound, Rule;
    var lines, out := Lines(body), Remapped(body, f);
    NoteFlat(body);
    RenderLike(NotePieces(body), f);
    LikeAlike(body, out);
    LinesAlike(body, out);
    if Rule(lines[0]) {
      LitsPlain(lines[0], f);
      RenderAppend(Lits(lines[0]), Scan(lines[1..], Front("")), f);
      var rest := Out(lines[1..], Front(""), f);
      assert out[..|lines[0]|] == lines[0] && out[|lines[0]|..] == rest && rest[0..] == rest;
    } else {
      assert out[0..] == out;
    }
  }

  // ---------------------------------------------------------------- inline code

  function Ticks(s: string): nat {
    if s == "" then 0 else (if s[0] == '`' then 1 else 0) + Ticks(s[1..])
  }

  // A backtick after an even number of them, and the next one, enclose code that is not touched.
  lemma {:induction false} InlineCodeUnchanged(text: string, a: nat, b: nat, f: Renaming)
    requires KeepsShape(f) && a < b < |text| && text[a] == '`' && text[b] == '`'
    requires Ticks(text[..a]) % 2 == 0 && '`' !in text[a + 1..b]
    ensures |Render(ProsePieces(text), f)| == |text| && Render(ProsePieces(text), f)[a..b + 1] == text[a..b + 1]
    decreases |text|
  {
    hide KeepsShape, Render, ProsePieces, SpanOf, Ticks;
    var (x, y) := SpanOf(text);
    FirstSpan(text, a, b);
    SpanOut(text, f);
    if x != a {
      LaterSpan(text, x, y, a, b);
      Shifted(text, y + 1, a, b);
      InlineCodeUnchanged(text[y + 1..], a - y - 1, b - y - 1, f);
      Shifted(Render(ProsePieces(text), f), y + 1, a, b);
    }
  }

  lemma Shifted(s: string, d: nat, a: nat, b: nat)
    requires d <= a < b < |s|
    ensures s[d..][a - d..b - d + 1] == s[a..b + 1] && s[d..][a - d + 1..b - d] == s[a + 1..b]
  {
  }

  lemma SpanOut(text: string, f: Renaming)
    requires KeepsShape(f) && SpanOf(text).1 < |text|
    ensures var out := Render(ProsePieces(text), f);
      var (x, y) := SpanOf(text);
      |out| == |text| && out[x..y + 1] == text[x..y + 1] && out[y + 1..] == Render(ProsePieces(text[y + 1..]), f)
  {
    hide KeepsShape, Render, Sound, TextPieces, ProsePieces, SpanOf, Lits;
    var (x, y) := SpanOf(text);
    SpanPieces(text);
    ProsePiecesFlat(text);
    SameLength(ProsePieces(text), f);
    SpanRender(text, x, y, f);
    TextPiecesFlat(text[..x]);
    SameLength(TextPieces(text[..x]), f);
    ThreeParts(Render(ProsePieces(text), f), Render(TextPieces(text[..x]), f), text[x..y + 1], Render(ProsePieces(text[y + 1..]), f));
  }

  lemma SpanPieces(text: string)
    requires SpanOf(text).1 < |text|
    ensures var (x, y) := SpanOf(text);
      ProsePieces(text) == TextPieces(text[..x]) + Lits(text[x..y + 1]) + ProsePieces(text[y + 1..])
  {
    hide TextPieces, SpanOf, Lits;
  }

  lemma {:induction false} TicksAppend(s: string, t: string)
    ensures Ticks(s + t) == Ticks(s) + Ticks(t)
  {
    if s == "" {
      assert s + t == t;
    } else {
      assert (s + t)[1..] == s[1..] + t;
      TicksAppend(s[1..], t);
    }
  }

  lemma {:induction false} NoTicks(s: string)
    requires '`' !in s
    ensures Ticks(s) == 0
  {
    if s != "" { NoTicks(s[1..]); }
  }

  // The first span is this one or ends before it.
  lemma FirstSpan(text: string, a: nat, b: nat)
    requires a < b < |text| && text[a] == '`' && text[b] == '`' && '`' !in text[a + 1..b]
    ensures SpanOf(text).0 <= a && SpanOf(text).1 < |text|
    ensures SpanOf(text).0 == a ==> SpanOf(text).1 == b
    ensures forall i :: 0 <= i < SpanOf(text).0 ==> text[i] != '`'
    ensures forall i :: SpanOf(text).0 < i < SpanOf(text).1 ==> text[i] != '`'
  {
    var x := Find(text, '`');
    var tail := text[x + 1..];
    var n := Find(tail, '`');
    assert tail[b - x - 1] == '`';
    assert forall i :: x < i < x + 1 + n ==> text[i] == tail[i - x - 1];
    if x == a {
      assert forall i :: 0 <= i < b - a - 1 ==> tail[i] == text[a + 1..b][i];
    }
  }

  lemma LaterSpan(text: string, x: nat, y: nat, a: nat, b: nat)
    requires x < y < |text| && x < a < b < |text| && text[x] == '`' && text[y] == '`' && text[a] == '`'
    requires forall i :: 0 <= i < x ==> text[i] != '`'
    requires forall i :: x < i < y ==> text[i] != '`'
    requires Ticks(text[..a]) % 2 == 0
    ensures y < a && Ticks(text[y + 1..][..a - y - 1]) % 2 == 0
  {
    if a == y {
      OneTick(text, x, a);
    } else {
      OneTick(text, x, y);
      var mid := text[..y] + [text[y]];
      assert text[..a] == mid + text[y + 1..a];
      TicksAppend(mid, text[y + 1..a]);
      TicksAppend(text[..y], [text[y]]);
      assert [text[y]][1..] == "";
      assert text[y + 1..][..a - y - 1] == text[y + 1..a];
    }
  }

  lemma OneTick(text: string, x: nat, n: nat)
    requires x < n <= |text| && text[x] == '`'
    requires forall i :: 0 <= i < n && i != x ==> text[i] != '`'
    ensures Ticks(text[..n]) == 1
  {
    assert text[..n] == text[..x] + ([text[x]] + text[x + 1..n]);
    TicksAppend(text[..x], [text[x]] + text[x + 1..n]);
    NoTicks(text[..x]);
    NoTicks(text[x + 1..n]);
    assert ([text[x]] + text[x + 1..n])[1..] == text[x + 1..n];
  }

  // ---------------------------------------------------------------- stretches of prose

  lemma {:induction false} ChunkFrom(lines: seq<string>, text: string, j: nat, f: Renaming)
    requires KeepsShape(f) && j <= |lines| && (forall k :: 0 <= k < j ==> !Marker(lines[k])) && (j < |lines| ==> Marker(lines[j]))
    ensures Render(ProsePieces(text + Joined(lines[..j])), f) <= Out(lines, Prose(text), f)
    ensures |Render(ProsePieces(text + Joined(lines[..j])), f)| == |text + Joined(lines[..j])|
    decreases j
  {
    hide KeepsShape, Marker, ProsePieces, Sound, Render;
    if j == 0 {
      ProsePiecesFlat(text);
      SameLength(ProsePieces(text), f);
      assert text + Joined(lines[..0]) == text;
      if lines != [] {
        RenderAppend(ProsePieces(text), Lits(lines[0]), f);
        RenderAppend(ProsePieces(text) + Lits(lines[0]), Scan(lines[1..], Fenced(Fence(lines[0]))), f);
      }
    } else {
      ChunkFrom(lines[1..], text + lines[0], j - 1, f);
      assert lines[..j][1..] == lines[1..][..j - 1];
      assert text + Joined(lines[..j]) == text + lines[0] + Joined(lines[1..][..j - 1]);
    }
  }

  lemma {:induction false} JoinedRecut(lines: seq<string>, t: string, j: nat)
    requires |Joined(lines)| <= |t| && j <= |lines|
    ensures |Recut(lines, t)| == |lines| && |Joined(lines[..j])| <= |t|
    ensures Joined(Recut(lines, t)[..j]) == t[..|Joined(lines[..j])|]
    decreases j, |lines|
  {
    if lines != [] {
      var head, rest := t[..|lines[0]|], t[|lines[0]|..];
      JoinedRecut(lines[1..], rest, if j > 0 then j - 1 else 0);
      if j > 0 {
        assert lines[..j][1..] == lines[1..][..j - 1];
        assert Recut(lines, t)[..j][1..] == Recut(lines[1..], rest)[..j - 1];
      }
    }
  }

  lemma {:induction false} WrittenFrom(lines: seq<string>, mode: Mode, i: nat, f: Renaming)
    requires KeepsShape(f) && i <= |lines|
    ensures |Written(lines, mode, f)| == |lines|
    ensures Written(lines, mode, f)[i..] == Written(lines[i..], Reached(lines, mode, i), f)
    decreases i
  {
    hide KeepsShape, Verbatim, Written, After;
    WrittenCount(lines, mode, f);
    if i > 0 {
      WrittenSteps(lines, mode, f);
      WrittenFrom(lines[1..], After(mode, lines[0]), i - 1, f);
      assert Written(lines, mode, f)[i..] == Written(lines, mode, f)[1..][i - 1..];
    }
  }

  // From where prose starts, at line i, to the next fence or the end, before line j, a note's text is
  // one piece of prose: its inline code stays, and its Shape tags may run over several lines.
  lemma ProseIsRenamedAsAWhole(body: string, i: nat, j: nat, f: Renaming)
    requires KeepsShape(f) && i <= j <= |Lines(body)| && ModeBefore(body, i) == Prose("")
    requires forall k :: i <= k < j ==> !Marker(Lines(body)[k])
    requires j < |Lines(body)| ==> Marker(Lines(body)[j])
    ensures |Lines(Remapped(body, f))| == |Lines(body)|
    ensures Joined(Lines(Remapped(body, f))[i..j]) == Render(ProsePieces(Joined(Lines(body)[i..j])), f)
  {
    hide KeepsShape, Written, After, Lines, Rule, Joined, Remapped, Marker, Render, ProsePieces;
    var lines := Lines(body);
    NoteWritten(body, f);
    if Rule(lines[0]) {
      WrittenFrom(lines[1..], Front(""), i - 1, f);
      assert lines[1..][i - 1..] == lines[i..];
    } else {
      WrittenFrom(lines, Prose(""), i, f);
    }
    assert Lines(Remapped(body, f))[i..] == Written(lines[i..], Prose(""), f);
    ChunkWritten(lines[i..], j - i, f);
    assert lines[i..][..j - i] == lines[i..j] && Lines(Remapped(body, f))[i..][..j - i] == Lines(Remapped(body, f))[i..j];
  }

  lemma ChunkWritten(lines: seq<string>, j: nat, f: Renaming)
    requires KeepsShape(f) && j <= |lines| && (forall k :: 0 <= k < j ==> !Marker(lines[k])) && (j < |lines| ==> Marker(lines[j]))
    ensures |Written(lines, Prose(""), f)| == |lines|
    ensures Joined(Written(lines, Prose(""), f)[..j]) == Render(ProsePieces(Joined(lines[..j])), f)
  {
    hide KeepsShape, Marker, Render, ProsePieces, Scan, Joined;
    var out := Out(lines, Prose(""), f);
    OutLength(lines, Prose(""), f);
    ChunkFrom(lines, "", j, f);
    JoinedRecut(lines, out, j);
    assert out[0..] == out && "" + Joined(lines[..j]) == Joined(lines[..j]);
  }

  // ---------------------------------------------------------------- the transducer

  lemma NextSpan(text: string, cursor: nat, f: Renaming)
    requires cursor <= |text|
    ensures var (a, b) := SpanOf(text[cursor..]);
      Render(ProsePieces(text[cursor..]), f) ==
        if b == |text| - cursor then Render(TextPieces(text[cursor..]), f)
        else Render(TextPieces(text[cursor..cursor + a]), f) + text[cursor + a..cursor + b + 1] + Render(ProsePieces(text[cursor + b + 1..]), f)
  {
    hide Render, TextPieces, SpanOf, Lits;
    var rest := text[cursor..];
    var (a, b) := SpanOf(rest);
    if b < |rest| {
      SpanRender(rest, a, b, f);
      Slices(text, cursor, a, b);
    }
  }

  lemma Slices(text: string, cursor: nat, a: nat, b: nat)
    requires a <= b && cursor + b < |text|
    ensures text[cursor..][..a] == text[cursor..cursor + a] && text[cursor..][a..b + 1] == text[cursor + a..cursor + b + 1]
    ensures text[cursor..][b + 1..] == text[cursor + b + 1..]
  {
  }

  // Text around inline code is rewritten, the code itself copied.
  method Flush(text: string, f: Renaming) returns (output: string)
    ensures output == Render(ProsePieces(text), f)
  {
    hide Render, ProsePieces, TextPieces, SpanOf;
    output := "";
    var cursor := 0;
    assert text[0..] == text;
    var span := SpanOf(text[cursor..]);
    while span.1 < |text| - cursor
      invariant cursor <= |text| && span == SpanOf(text[cursor..])
      invariant output + Render(ProsePieces(text[cursor..]), f) == Render(ProsePieces(text), f)
      decreases |text| - cursor
    {
      NextSpan(text, cursor, f);
      output := output + Render(TextPieces(text[cursor..cursor + span.0]), f);
      output := output + text[cursor + span.0..cursor + span.1 + 1];
      cursor := cursor + span.1 + 1;
      span := SpanOf(text[cursor..]);
    }
    NextSpan(text, cursor, f);
    output := output + Render(TextPieces(text[cursor..]), f);
  }

  // What a line makes the scan write at once.
  function Emitted(mode: Mode, line: string, f: Renaming): string {
    match mode
    case Front(field) => if !Rule(line) && Listed(FieldAt(field, line)) then Render(RefPieces(line), f) else line
    case Prose(text) => if Marker(line) then Render(ProsePieces(text), f) + line else ""
    case Fenced(_) => line
  }

  lemma NextLine(lines: seq<string>, i: nat, mode: Mode, f: Renaming)
    requires i < |lines|
    ensures Out(lines[i..], mode, f) == Emitted(mode, lines[i], f) + Out(lines[i + 1..], After(mode, lines[i]), f)
  {
    hide Render, Rule, Marker, HasPrefix, FieldAt, Listed, Trim, ProsePieces, RefPieces, Fence;
    var line, rest, next := lines[i], lines[i + 1..], After(mode, lines[i]);
    assert lines[i..][0] == line && lines[i..][1..] == rest;
    LitsPlain(line, f);
    RenderAppend(Lits(line), Scan(rest, next), f);
    RenderAppend(RefPieces(line), Scan(rest, next), f);
    if mode.Prose? {
      RenderAppend(ProsePieces(mode.text) + Lits(line), Scan(rest, next), f);
      RenderAppend(ProsePieces(mode.text), Lits(line), f);
    }
  }

  lemma LastLine(mode: Mode, f: Renaming)
    ensures Out([], mode, f) == Render(ProsePieces(Pending(mode)), f)
  {
  }

  function ModeOf(front: bool, field: string, fence: string, prose: string): Mode {
    if front then Front(field) else if fence != "" then Fenced(fence) else Prose(prose)
  }

  // `output` is what the whole note becomes, short of what a scan in `mode` makes of lines from i on.
  ghost predicate Owed(body: string, f: Renaming, output: string, i: nat, mode: Mode) {
    i <= |Lines(body)| && output + Out(Lines(body)[i..], mode, f) == Remapped(body, f)
  }

  lemma OwedNext(body: string, f: Renaming, output: string, i: nat, mode: Mode)
    requires i < |Lines(body)| && Owed(body, f, output, i, mode)
    ensures Owed(body, f, output + Emitted(mode, Lines(body)[i], f), i + 1, After(mode, Lines(body)[i]))
  {
    hide Out, Lines, Emitted, After, Remapped;
    NextLine(Lines(body), i, mode, f);
  }

  // The two ways the first line is treated.
  lemma OwedFirst(body: string, f: Renaming)
    ensures if Rule(Lines(body)[0]) then Owed(body, f, Lines(body)[0], 1, Front("")) else Owed(body, f, "", 0, Prose(""))
  {
    hide Out, Lines, Rule, Remapped;
    FirstLine(body, f);
    assert Lines(body)[0..] == Lines(body);
  }

  method RemapNote(body: string, f: Renaming) returns (output: string)
    ensures output == Remapped(body, f)
  {
    hide Owed, Scan, Sound, Rule, Marker, Trim, FieldAt, Lines, RefPieces, ProsePieces, Render, HasPrefix, Remapped, Out, Fence;
    var lines := Lines(body);
    var front := Rule(lines[0]);
    var field, fence, prose := "", "", "";
    output := "";
    OwedFirst(body, f);
    for i := 0 to |lines|
      invariant front ==> fence == "" && prose == ""
      invariant fence != "" ==> prose == ""
      invariant i == 0 ==> output == "" && field == "" && front == Rule(lines[0])
      invariant i > 0 || !front ==> Owed(body, f, output, i, ModeOf(front, field, fence, prose))
    {
      var line := lines[i];
      var trimmed := Trim(line);
      Tests(line);
      if i > 0 || !front { OwedNext(body, f, output, i, ModeOf(front, field, fence, prose)); }
      if front {
        if i > 0 && trimmed == "---" {
          front := false;
        } else if i > 0 {
          field := FieldAt(field, line);
          if field == "pages" || field == "elements" {
            line := Render(RefPieces(line), f);
          }
        }
        Grouped(output, "", line);
        output := output + line;
        continue;
      }
      if HasPrefix(trimmed, "```") || HasPrefix(trimmed, "~~~") {
        var text := Flush(prose, f);
        EmptyProse(f);
        Grouped(output, text, line);
        output := output + text;
        prose := "";
        if fence == "" {
          fence := trimmed[..3];
        } else if HasPrefix(trimmed, fence) {
          fence := "";
        }
        output := output + line;
        continue;
      }
      if fence != "" {
        output := output + line;
      } else {
        Grouped(output, "", "");
        prose := prose + line;
      }
    }
    var text := Flush(prose, f);
    OwedLast(body, f, output, ModeOf(front, field, fence, prose));
    output := output + text;
  }

  lemma Grouped(a: string, b: string, c: string)
    ensures a + (b + c) == a + b + c && a + "" == a && "" + c == c && b + "" == b
  {
  }

  lemma OwedLast(body: string, f: Renaming, output: string, mode: Mode)
    requires Owed(body, f, output, |Lines(body)|, mode)
    ensures output + Render(ProsePieces(Pending(mode)), f) == Remapped(body, f)
  {
    hide Out, Lines, Remapped, Render, ProsePieces;
    LastLine(mode, f);
    assert Lines(body)[|Lines(body)|..] == [];
  }

  lemma FirstLine(body: string, f: Renaming)
    ensures var lines := Lines(body);
      Remapped(body, f) ==
        if Rule(lines[0]) then lines[0] + Out(lines[1..], Front(""), f) else Out(lines, Prose(""), f)
  {
    hide Render, Scan;
    var lines := Lines(body);
    LitsPlain(lines[0], f);
    RenderAppend(Lits(lines[0]), Scan(lines[1..], Front("")), f);
  }

  lemma EmptyProse(f: Renaming)
    ensures Render(ProsePieces(""), f) == ""
  {
  }

  lemma Tests(line: string)
    ensures Rule(line) == (Trim(line) == "---")
    ensures Marker(line) == (HasPrefix(Trim(line), "```") || HasPrefix(Trim(line), "~~~"))
    ensures Marker(line) ==> |Trim(line)| >= 3 && Fence(line) == Trim(line)[..3] != ""
  {
    hide Trim;
  }
}
